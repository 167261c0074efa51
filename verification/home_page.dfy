/** The selection logic of the market list screen (src/components/home/HomePage.tsx):
    the search filter, the gainers/losers counts of the market overview, and which
    sections of the page render for a given state. */
module HomePage {
  import opened Text
  import opened Seqs
  import opened Crypto

  /** An entry matches when its lower-cased name or symbol contains the lower-cased term. */
  predicate Matches(term: string, e: Entry) {
    Includes(Lower(e.name), Lower(term)) || Includes(Lower(e.symbol), Lower(term))
  }

  /** `filteredCryptos`. */
  function FilterCryptos(cryptos: seq<Entry>, term: string): (r: seq<Entry>)
    ensures forall e :: e in r <==>
              e in cryptos && (Contains(Lower(e.name), Lower(term)) || Contains(Lower(e.symbol), Lower(term)))
    ensures |r| == CountWhere(cryptos, e => Matches(term, e))
  {
    SelectLength(cryptos, e => Matches(term, e));
    Select(cryptos, e => Matches(term, e))
  }

  /** The filtered list keeps the entries it keeps in their original order. */
  lemma FilterPreservesOrder(cryptos: seq<Entry>, term: string)
    ensures IsSubsequence(FilterCryptos(cryptos, term), cryptos)
  {
    SelectIsSubsequence(cryptos, e => Matches(term, e));
  }

  /** An empty search term keeps every entry. */
  lemma EmptySearchKeepsAll(cryptos: seq<Entry>)
    ensures FilterCryptos(cryptos, "") == cryptos
  {
    forall e | e in cryptos ensures Matches("", e) {
      ContainsEmpty(Lower(e.name));
    }
    SelectAll(cryptos, e => Matches("", e));
  }

  /** Filtering the filtered list again with the same term changes nothing. */
  lemma FilterIdempotent(cryptos: seq<Entry>, term: string)
    ensures FilterCryptos(FilterCryptos(cryptos, term), term) == FilterCryptos(cryptos, term)
  {
    SelectIdempotent(cryptos, e => Matches(term, e));
  }

  // ---------------------------------------------------------------------------
  // Market overview counts
  // ---------------------------------------------------------------------------

  predicate IsGainer(e: Entry) { e.priceChange24h > 0.0 }

  predicate IsLoser(e: Entry) { e.priceChange24h < 0.0 }

  predicate IsUnchanged(e: Entry) { e.priceChange24h == 0.0 }

  /** The market overview's `gainers` and `losers`: the lengths of two filters. */
  function GainersAndLosers(cryptos: seq<Entry>): (counts: (nat, nat))
    ensures counts.0 == CountWhere(cryptos, IsGainer)
    ensures counts.1 == CountWhere(cryptos, IsLoser)
    ensures counts.0 + counts.1 <= |cryptos|
  {
    var gainers := Select(cryptos, IsGainer);
    var losers := Select(cryptos, IsLoser);
    SelectDisjoint(cryptos, IsGainer, IsLoser);
    SelectLength(cryptos, IsGainer);
    SelectLength(cryptos, IsLoser);
    (|gainers|, |losers|)
  }

  /** A count is positive exactly when some entry moved that way. */
  lemma CountsSeeEveryMover(cryptos: seq<Entry>)
    ensures GainersAndLosers(cryptos).0 > 0 <==> exists e :: e in cryptos && IsGainer(e)
    ensures GainersAndLosers(cryptos).1 > 0 <==> exists e :: e in cryptos && IsLoser(e)
  {
    var gainers := Select(cryptos, IsGainer);
    var losers := Select(cryptos, IsLoser);
    assert |gainers| > 0 ==> gainers[0] in gainers;
    assert |losers| > 0 ==> losers[0] in losers;
  }

  /** Every entry is a gainer, a loser or unchanged, and exactly one of them: the
      counts with the unchanged entries make up the whole list. */
  lemma {:induction false} CountsPartitionList(cryptos: seq<Entry>)
    ensures var (gainers, losers) := GainersAndLosers(cryptos);
            gainers + losers + |Select(cryptos, IsUnchanged)| == |cryptos|
  {
    if cryptos != [] {
      CountsPartitionList(cryptos[1..]);
    }
  }

  // ---------------------------------------------------------------------------
  // Which sections render
  // ---------------------------------------------------------------------------

  /** The sections of the page that render. */
  datatype Sections = Sections(
    skeleton: bool,      // the eight loading placeholder cards
    errorPanel: bool,    // the connection error panel with its retry button
    list: bool,          // the list block: overview, cards, notices, footer
    marketStats: bool,   // the market overview inside the list block
    noResults: bool,     // the empty-search notice inside the list block
    footer: bool         // the update-interval footer inside the list block
  )

  /** JavaScript truthiness of `error: string | null`: null and "" are both false. */
  predicate ErrorShown(error: Option<string>) {
    error.Some? && error.value != []
  }

  /** The JSX guards of the page, evaluated for one render. */
  function Render(loading: bool, error: Option<string>, cryptos: seq<Entry>, searchTerm: string): (v: Sections)
    ensures v.skeleton <==> loading
    ensures v.errorPanel <==> ErrorShown(error)
    ensures v.list <==> !loading && !ErrorShown(error) && |cryptos| > 0
    ensures v.marketStats <==> v.list && searchTerm == []
    ensures v.footer <==> v.list && searchTerm == []
    ensures v.noResults <==> v.list && searchTerm != [] && FilterCryptos(cryptos, searchTerm) == []
  {
    var list := !loading && !ErrorShown(error) && |cryptos| > 0;
    Sections(
      skeleton := loading,
      errorPanel := ErrorShown(error),
      list := list,
      marketStats := list && searchTerm == [],
      noResults := list && |FilterCryptos(cryptos, searchTerm)| == 0 && searchTerm != [],
      footer := list && searchTerm == [])
  }

  /** The list block never shares the screen with the spinner or the error panel;
      the overview and the no-results notice never show together; and when the
      overview shows, the cards below it are the whole list. */
  lemma RenderExclusions(loading: bool, error: Option<string>, cryptos: seq<Entry>, searchTerm: string)
    ensures var v := Render(loading, error, cryptos, searchTerm);
            && !(v.list && v.skeleton)
            && !(v.list && v.errorPanel)
            && !(v.marketStats && v.noResults)
            && (v.marketStats ==> FilterCryptos(cryptos, searchTerm) == cryptos)
  {
    if searchTerm == [] {
      EmptySearchKeepsAll(cryptos);
    }
  }

  /** A set error hides the list even when data is present; an empty error message
      is falsy and hides nothing. */
  lemma ErrorHidesData(cryptos: seq<Entry>, message: string, searchTerm: string)
    requires |cryptos| > 0
    ensures message != [] ==>
              var v := Render(false, Some(message), cryptos, searchTerm);
              v.errorPanel && !v.list
    ensures message == [] ==>
              var v := Render(false, Some(message), cryptos, searchTerm);
              !v.errorPanel && v.list
  {
  }
}
