/** The pure string and number helpers of src/utils/formatters.ts that do not depend
    on floating-point digit rendering: `sanitizeNumberInput`, `truncateText`,
    `formatRank`, `formatTimeAgo`, `formatErrorMessage` and `formatPriceChange`. */
module Formatters {
  import opened Text
  import opened Seqs

  // ===========================================================================
  // sanitizeNumberInput
  // ===========================================================================

  predicate IsDot(c: char) { c == '.' }

  predicate NotDot(c: char) { c != '.' }

  /** The characters the cleaning pattern `[^0-9.]` does not delete. */
  predicate IsNumberChar(c: char) { IsDigit(c) || c == '.' }

  function DotCount(s: string): nat {
    |Select(s, IsDot)|
  }

  /** `s.split('.')`: the maximal dot-free runs of `s`, one more than there are dots. */
  function SplitOnDot(s: string): (parts: seq<string>)
    ensures |parts| == DotCount(s) + 1
    ensures forall k :: 0 <= k < |parts| ==> '.' !in parts[k]
  {
    if s == [] then [[]]
    else if s[0] == '.' then [[]] + SplitOnDot(s[1..])
    else
      var p := SplitOnDot(s[1..]);
      [[s[0]] + p[0]] + p[1..]
  }

  /** `parts.join('')`. */
  function Concat(parts: seq<string>): string {
    if parts == [] then [] else parts[0] + Concat(parts[1..])
  }

  /** Reference definition: `s` with every dot after the first one removed. */
  function KeepFirstDot(s: string): (r: string)
    ensures forall c :: c in r ==> c in s
  {
    if s == [] then []
    else if s[0] == '.' then ['.'] + Select(s[1..], NotDot)
    else [s[0]] + KeepFirstDot(s[1..])
  }

  /** `sanitizeNumberInput`: delete every character other than a digit or a dot; when
      more than one dot is left, keep the text before the first dot, one dot, and the
      remaining pieces joined without their dots. */
  function SanitizeNumberInput(input: string): (r: string)
    ensures forall i :: 0 <= i < |r| ==> IsNumberChar(r[i])
    ensures DotCount(r) <= 1
    ensures r == KeepFirstDot(Select(input, IsNumberChar))
    ensures Select(r, IsDigit) == Select(input, IsDigit)
  {
    var cleaned := Select(input, IsNumberChar);
    var parts := SplitOnDot(cleaned);
    SanitizeAgreesWithReference(cleaned);
    KeepFirstDotDots(cleaned);
    KeepFirstDotDigits(cleaned);
    SelectNarrow(input, IsNumberChar, IsDigit);
    if |parts| > 2 then parts[0] + "." + Concat(parts[1..]) else cleaned
  }

  lemma {:induction false} ConcatSplit(s: string)
    ensures Concat(SplitOnDot(s)) == Select(s, NotDot)
  {
    if s != [] {
      ConcatSplit(s[1..]);
      if s[0] != '.' {
        var p := SplitOnDot(s[1..]);
        assert Concat(p) == p[0] + Concat(p[1..]);
        assert SplitOnDot(s)[1..] == p[1..];
      }
    }
  }

  /** Splitting at the dots and joining all pieces but the first one back without
      dots is exactly the reference definition. */
  lemma {:induction false} SplitJoinKeepsFirstDot(s: string)
    requires DotCount(s) >= 1
    ensures SplitOnDot(s)[0] + "." + Concat(SplitOnDot(s)[1..]) == KeepFirstDot(s)
  {
    DotCountCons(s);
    var p := SplitOnDot(s[1..]);
    if s[0] == '.' {
      ConcatSplit(s[1..]);
      assert SplitOnDot(s) == [[]] + p;
      assert KeepFirstDot(s) == ['.'] + Select(s[1..], NotDot);
    } else {
      SplitJoinKeepsFirstDot(s[1..]);
      assert SplitOnDot(s) == [[s[0]] + p[0]] + p[1..];
      assert KeepFirstDot(s) == [s[0]] + KeepFirstDot(s[1..]);
      JoinCons(s[0], p[0], Concat(p[1..]));
    }
  }

  lemma JoinCons(c: char, head: string, tail: string)
    ensures [c] + head + "." + tail == [c] + (head + "." + tail)
  {
  }

  /** Counting dots one character at a time. */
  lemma DotCountCons(s: string)
    requires s != []
    ensures DotCount(s) == (if s[0] == '.' then 1 else 0) + DotCount(s[1..])
  {
    if s[0] == '.' {
      assert Select(s, IsDot) == [s[0]] + Select(s[1..], IsDot);
    } else {
      assert Select(s, IsDot) == Select(s[1..], IsDot);
    }
  }

  /** Dropping the dots of a dot-free text changes nothing. */
  lemma NoDotsKept(s: string)
    requires DotCount(s) == 0
    ensures Select(s, NotDot) == s
  {
    forall c | c in s
      ensures NotDot(c)
    {
      if c == '.' {
        assert c in Select(s, IsDot);
      }
    }
    SelectAll(s, NotDot);
  }

  /** A text with at most one dot is its own reference result. */
  lemma {:induction false} KeepFirstDotIdentity(s: string)
    requires DotCount(s) <= 1
    ensures KeepFirstDot(s) == s
  {
    if s != [] {
      DotCountCons(s);
      if s[0] == '.' {
        NoDotsKept(s[1..]);
        assert ['.'] + s[1..] == s;
      } else {
        KeepFirstDotIdentity(s[1..]);
        assert [s[0]] + s[1..] == s;
      }
    }
  }

  /** The reference result keeps one dot if there was any, and none otherwise. */
  lemma {:induction false} KeepFirstDotDots(s: string)
    ensures DotCount(KeepFirstDot(s)) == if DotCount(s) == 0 then 0 else 1
  {
    if s != [] {
      if s[0] == '.' {
        var rest := Select(s[1..], NotDot);
        SelectConcat(['.'], rest, IsDot);
        SelectNone(rest, IsDot);
      } else {
        KeepFirstDotDots(s[1..]);
        SelectConcat([s[0]], KeepFirstDot(s[1..]), IsDot);
      }
    }
  }

  /** The reference result keeps every digit, in order. */
  lemma {:induction false} KeepFirstDotDigits(s: string)
    ensures Select(KeepFirstDot(s), IsDigit) == Select(s, IsDigit)
  {
    if s != [] {
      if s[0] == '.' {
        SelectConcat(['.'], Select(s[1..], NotDot), IsDigit);
        SelectNarrow(s[1..], NotDot, IsDigit);
      } else {
        KeepFirstDotDigits(s[1..]);
        SelectConcat([s[0]], KeepFirstDot(s[1..]), IsDigit);
      }
    }
  }

  lemma SanitizeAgreesWithReference(cleaned: string)
    ensures (if |SplitOnDot(cleaned)| > 2
             then SplitOnDot(cleaned)[0] + "." + Concat(SplitOnDot(cleaned)[1..])
             else cleaned) == KeepFirstDot(cleaned)
  {
    if |SplitOnDot(cleaned)| > 2 {
      SplitJoinKeepsFirstDot(cleaned);
    } else {
      KeepFirstDotIdentity(cleaned);
    }
  }

  /** Text made only of digits and at most one dot is returned unchanged. */
  lemma SanitizeKeepsCleanInput(input: string)
    requires forall i :: 0 <= i < |input| ==> IsNumberChar(input[i])
    requires DotCount(input) <= 1
    ensures SanitizeNumberInput(input) == input
  {
    SelectAll(input, IsNumberChar);
    KeepFirstDotIdentity(input);
  }

  /** Sanitizing an already sanitized text changes nothing. */
  lemma SanitizeIdempotent(input: string)
    ensures SanitizeNumberInput(SanitizeNumberInput(input)) == SanitizeNumberInput(input)
  {
    SanitizeKeepsCleanInput(SanitizeNumberInput(input));
  }

  // ===========================================================================
  // truncateText
  // ===========================================================================

  function Clamp(i: int, len: nat): (j: nat)
    ensures j <= len
  {
    if i < 0 then 0 else if i > len then len else i
  }

  /** `s.substring(start, end)`: both bounds are clamped into `[0, |s|]` and swapped
      when the start lies after the end. */
  function Substring(s: string, start: int, end: int): string {
    var a := Clamp(start, |s|);
    var b := Clamp(end, |s|);
    if a <= b then s[a..b] else s[b..a]
  }

  const Ellipsis: string := "..."

  /** `truncateText`: an empty text or one no longer than `maxLength` is returned as
      is; a longer one keeps its first `maxLength - 3` characters (none when that is
      negative) followed by an ellipsis. */
  function TruncateText(text: string, maxLength: int): (r: string)
    ensures text == [] || |text| <= maxLength ==> r == text
    ensures text != [] && |text| > maxLength ==>
              && |r| == (if maxLength >= 3 then maxLength else 3)
              && r == text[..|r| - 3] + Ellipsis
  {
    if text == [] || |text| <= maxLength then text
    else Substring(text, 0, maxLength - 3) + Ellipsis
  }

  // ===========================================================================
  // formatRank
  // ===========================================================================

  const NotRanked: string := "N/A"

  /** The two-letter suffix of a rendered rank. */
  function SuffixOf(r: string): string
    requires |r| >= 2
  {
    r[|r| - 2..]
  }

  /** The suffix the written rule attaches to a positive rank. */
  function WrittenSuffix(rank: nat): string {
    if rank == 1 then "st" else if rank == 2 then "nd" else if rank == 3 then "rd" else "th"
  }

  /** `formatRank` as written: 1, 2 and 3 get "st", "nd" and "rd"; every other
      positive rank gets "th". */
  function FormatRank(rank: int): (r: string)
    ensures rank <= 0 <==> r == NotRanked
    ensures rank > 0 ==>
              && |r| >= 3
              && r[..|r| - 2] == NatToDecimal(rank)
              && DecimalValue(r[..|r| - 2]) == rank
              && (SuffixOf(r) == "st" <==> rank == 1)
              && (SuffixOf(r) == "nd" <==> rank == 2)
              && (SuffixOf(r) == "rd" <==> rank == 3)
              && (SuffixOf(r) == "th" <==> rank >= 4)
  {
    if rank <= 0 then NotRanked
    else
      var digits := NatToDecimal(rank);
      DecimalRoundTrip(rank);
      DigitsThenSuffix(digits, WrittenSuffix(rank));
      SuffixesDiffer();
      digits + WrittenSuffix(rank)
  }

  /** A rendered rank splits back into its digits and its two-letter suffix. */
  lemma DigitsThenSuffix(digits: string, suffix: string)
    requires |digits| >= 1 && AllDigits(digits) && |suffix| == 2
    ensures var r := digits + suffix;
            && r[..|r| - 2] == digits
            && SuffixOf(r) == suffix
            && r != NotRanked
  {
    var r := digits + suffix;
    assert r[..|r| - 2] == digits;
    assert r[|r| - 2..] == suffix;
    if |r| == 3 {
      assert r[0] == digits[0] && IsDigit(r[0]);
      assert NotRanked[0] == 'N';
    }
  }

  /** The four suffixes are different texts. */
  lemma SuffixesDiffer()
    ensures "st" != "nd" && "st" != "rd" && "st" != "th"
    ensures "nd" != "rd" && "nd" != "th" && "rd" != "th"
  {
    assert "st"[0] == 's' && "nd"[0] == 'n' && "rd"[0] == 'r' && "th"[0] == 't';
  }

  /** The written rule mis-suffixes 21, 22 and 23 (and 31, 101, ...). */
  lemma FormatRankMissesTwentyFirst()
    ensures FormatRank(21) == "21th"
    ensures FormatRank(22) == "22th"
    ensures FormatRank(23) == "23th"
  {
    assert NatToDecimal(2) == "2";
    assert NatToDecimal(21) == "21";
    assert NatToDecimal(22) == "22";
    assert NatToDecimal(23) == "23";
  }

  /** English ordinal suffix: "th" when the tens digit is 1 (11th, 12th, 113th),
      otherwise "st", "nd" or "rd" for a last digit of 1, 2 or 3, and "th" for the rest. */
  function OrdinalSuffix(n: nat): string {
    if (n / 10) % 10 == 1 then "th"
    else if n % 10 == 1 then "st"
    else if n % 10 == 2 then "nd"
    else if n % 10 == 3 then "rd"
    else "th"
  }

  /** The evidently intended `formatRank`: the English ordinal of a positive rank. */
  function EnglishOrdinalRank(rank: int): (r: string)
    ensures rank <= 0 <==> r == NotRanked
    ensures rank > 0 ==> |r| >= 3 && r[..|r| - 2] == NatToDecimal(rank)
  {
    if rank <= 0 then NotRanked
    else
      DigitsThenSuffix(NatToDecimal(rank), OrdinalSuffix(rank));
      NatToDecimal(rank) + OrdinalSuffix(rank)
  }

  lemma DigitCharInjective(a: nat, b: nat)
    requires a < 10 && b < 10
    ensures DigitChar(a) == DigitChar(b) <==> a == b
  {
  }

  /** The corrected suffix is read off the rendered digits: "st", "nd" or "rd" when
      the last digit is 1, 2 or 3 and the digit before it is not 1; "th" otherwise. */
  lemma EnglishOrdinalFollowsDigits(rank: int)
    requires rank > 0
    ensures var r := EnglishOrdinalRank(rank);
            var d := NatToDecimal(rank);
            var last := d[|d| - 1];
            var teen := |d| >= 2 && d[|d| - 2] == '1';
            && (SuffixOf(r) == "st" <==> last == '1' && !teen)
            && (SuffixOf(r) == "nd" <==> last == '2' && !teen)
            && (SuffixOf(r) == "rd" <==> last == '3' && !teen)
            && (SuffixOf(r) == "th" <==> (last != '1' && last != '2' && last != '3') || teen)
  {
    var d := NatToDecimal(rank);
    DigitsThenSuffix(d, OrdinalSuffix(rank));
    SuffixesDiffer();
    LastDigit(rank);
    assert '1' == DigitChar(1) && '2' == DigitChar(2) && '3' == DigitChar(3);
    DigitCharInjective(rank % 10, 1);
    DigitCharInjective(rank % 10, 2);
    DigitCharInjective(rank % 10, 3);
    if rank >= 10 {
      TensDigit(rank);
      DigitCharInjective((rank / 10) % 10, 1);
    } else {
      assert (rank / 10) % 10 == 0;
    }
  }

  /** The written rule and the corrected one agree on every rank up to 20. */
  lemma EnglishOrdinalAgreesUpToTwenty(rank: int)
    requires rank <= 20
    ensures EnglishOrdinalRank(rank) == FormatRank(rank)
  {
    if rank > 0 {
      if rank < 10 {
        assert rank / 10 == 0 && rank % 10 == rank;
      } else if rank < 20 {
        assert rank / 10 == 1;
      } else {
        assert rank / 10 == 2 && rank % 10 == 0;
      }
      assert OrdinalSuffix(rank) == WrittenSuffix(rank);
    }
  }

  // ===========================================================================
  // formatTimeAgo
  // ===========================================================================

  /** `Math.floor((now - time) / 1000)`: whole seconds elapsed, rounded toward
      negative infinity (Dafny's `/` by a positive divisor rounds the same way). */
  function ElapsedSeconds(nowMs: int, timestampMs: int): (secs: int)
    ensures secs * 1000 <= nowMs - timestampMs < secs * 1000 + 1000
  {
    (nowMs - timestampMs) / 1000
  }

  datatype Ago = JustNow | MinutesAgo(minutes: nat) | HoursAgo(hours: nat) | DaysAgo(days: nat)

  /** The bucket a difference in whole seconds falls into, with the count of whole
      units it holds. */
  function AgoBucket(secs: int): (a: Ago)
    ensures a.JustNow? <==> secs < 60
    ensures a.MinutesAgo? <==> 60 <= secs < 3600
    ensures a.HoursAgo? <==> 3600 <= secs < 86400
    ensures a.DaysAgo? <==> 86400 <= secs
    ensures a.MinutesAgo? ==> 1 <= a.minutes <= 59 && a.minutes * 60 <= secs < a.minutes * 60 + 60
    ensures a.HoursAgo? ==> 1 <= a.hours <= 23 && a.hours * 3600 <= secs < a.hours * 3600 + 3600
    ensures a.DaysAgo? ==> 1 <= a.days && a.days * 86400 <= secs < a.days * 86400 + 86400
  {
    if secs < 60 then JustNow
    else if secs < 3600 then MinutesAgo(secs / 60)
    else if secs < 86400 then HoursAgo(secs / 3600)
    else DaysAgo(secs / 86400)
  }

  const JustNowText: string := "Just now"

  function AgoText(a: Ago): string {
    match a
    case JustNow => JustNowText
    case MinutesAgo(m) => NatToDecimal(m) + "m ago"
    case HoursAgo(h) => NatToDecimal(h) + "h ago"
    case DaysAgo(d) => NatToDecimal(d) + "d ago"
  }

  predicate EndsWith(s: string, suffix: string) {
    |s| >= |suffix| && s[|s| - |suffix|..] == suffix
  }

  /** `r` is a count without leading zeros followed by a five-letter unit, and the
      count is the number of whole units of `unitSecs` seconds in `secs`. */
  predicate ShowsCount(r: string, unitSecs: nat, secs: int) {
    && |r| > 5
    && AllDigits(r[..|r| - 5])
    && r[0] != '0'
    && DecimalValue(r[..|r| - 5]) * unitSecs <= secs < DecimalValue(r[..|r| - 5]) * unitSecs + unitSecs
  }

  /** `formatTimeAgo`, with the current time passed in instead of read from the clock. */
  function FormatTimeAgo(timestampMs: int, nowMs: int): (r: string)
    ensures var secs := ElapsedSeconds(nowMs, timestampMs);
            && (r == JustNowText <==> secs < 60)
            && (EndsWith(r, "m ago") <==> 60 <= secs < 3600)
            && (EndsWith(r, "h ago") <==> 3600 <= secs < 86400)
            && (EndsWith(r, "d ago") <==> 86400 <= secs)
  ensures var secs := ElapsedSeconds(nowMs, timestampMs);
          && (60 <= secs < 3600 ==> ShowsCount(r, 60, secs))
          && (3600 <= secs < 86400 ==> ShowsCount(r, 3600, secs))
          && (86400 <= secs ==> ShowsCount(r, 86400, secs))
  {
    var a := AgoBucket(ElapsedSeconds(nowMs, timestampMs));
    AgoTextShape(a);
    AgoTextCounts(ElapsedSeconds(nowMs, timestampMs));
    AgoText(a)
  }

  /** The count in front of the unit is the bucket's count of whole units. */
  lemma AgoTextCounts(secs: int)
    ensures var r := AgoText(AgoBucket(secs));
            && (60 <= secs < 3600 ==> ShowsCount(r, 60, secs))
            && (3600 <= secs < 86400 ==> ShowsCount(r, 3600, secs))
            && (86400 <= secs ==> ShowsCount(r, 86400, secs))
  {
    match AgoBucket(secs)
    case JustNow =>
    case MinutesAgo(m) => CountThenUnit(m, "m ago");
    case HoursAgo(h) => CountThenUnit(h, "h ago");
    case DaysAgo(d) => CountThenUnit(d, "d ago");
  }

  /** A positive count rendered before a five-letter unit reads back as the count. */
  lemma CountThenUnit(n: nat, unit: string)
    requires n >= 1 && |unit| == 5
    ensures var r := NatToDecimal(n) + unit;
            && |r| > 5
            && r[..|r| - 5] == NatToDecimal(n)
            && AllDigits(r[..|r| - 5])
            && r[0] != '0'
            && DecimalValue(r[..|r| - 5]) == n
  {
    var r := NatToDecimal(n) + unit;
    assert r[..|r| - 5] == NatToDecimal(n);
    assert r[0] == NatToDecimal(n)[0];
    DecimalRoundTrip(n);
  }

  /** A count followed by a five-letter unit ends in that unit and is not "Just now". */
  lemma UnitTextShape(digits: string, unit: string)
    requires |digits| >= 1 && IsDigit(digits[0]) && |unit| == 5
    ensures var r := digits + unit;
            r[|r| - 5..] == unit && r != JustNowText
  {
    var r := digits + unit;
    assert r[|r| - 5..] == unit;
    assert r[0] == digits[0];
    assert JustNowText[0] == 'J';
  }

  /** Each bucket's text is recognisable: only the first is "Just now", and the
      others end in their own unit. */
  lemma AgoTextShape(a: Ago)
    ensures AgoText(a) == JustNowText <==> a.JustNow?
    ensures EndsWith(AgoText(a), "m ago") <==> a.MinutesAgo?
    ensures EndsWith(AgoText(a), "h ago") <==> a.HoursAgo?
    ensures EndsWith(AgoText(a), "d ago") <==> a.DaysAgo?
  {
    assert "m ago"[0] == 'm' && "h ago"[0] == 'h' && "d ago"[0] == 'd';
    match a
    case JustNow =>
      assert JustNowText[|JustNowText| - 5..][0] == 't';
    case MinutesAgo(m) =>
      UnitTextShape(NatToDecimal(m), "m ago");
    case HoursAgo(h) =>
      UnitTextShape(NatToDecimal(h), "h ago");
    case DaysAgo(d) =>
      UnitTextShape(NatToDecimal(d), "d ago");
  }

  // ===========================================================================
  // formatErrorMessage
  // ===========================================================================

  const FetchFailedText: string := "Unable to connect to the server. Please check your internet connection."
  const NotFoundText: string := "The requested data could not be found."
  const ServerErrorText: string := "Server error. Please try again later."
  const NetworkErrorText: string := "Network error. Please check your connection and try again."
  const UnexpectedErrorText: string := "An unexpected error occurred."

  /** `formatErrorMessage`, given the message text (an `Error` argument contributes
      its `message` field). The keywords are tried in the order "fetch", "404", "500",
      "Network"; the first one present picks the friendly text. A message with none of
      them is shown as is, or replaced by a generic text when it is empty. */
  function FormatErrorMessage(message: string): (r: string)
    ensures r != []
    ensures Contains(message, "fetch") ==> r == FetchFailedText
    ensures !Contains(message, "fetch") && Contains(message, "404") ==> r == NotFoundText
    ensures (!Contains(message, "fetch") && !Contains(message, "404") && Contains(message, "500"))
              ==> r == ServerErrorText
    ensures (!Contains(message, "fetch") && !Contains(message, "404") && !Contains(message, "500")
             && Contains(message, "Network"))
              ==> r == NetworkErrorText
    ensures (!Contains(message, "fetch") && !Contains(message, "404") && !Contains(message, "500")
             && !Contains(message, "Network"))
              ==> r == (if message == [] then UnexpectedErrorText else message)
  {
    if Includes(message, "fetch") then FetchFailedText
    else if Includes(message, "404") then NotFoundText
    else if Includes(message, "500") then ServerErrorText
    else if Includes(message, "Network") then NetworkErrorText
    else if message == [] then UnexpectedErrorText
    else message
  }

  // ===========================================================================
  // formatPriceChange
  // ===========================================================================

  datatype Trend = Up | Down | Neutral

  /** The fields of `formatPriceChange`'s result other than the rendered percentage. */
  datatype PriceChange = PriceChange(isPositive: bool, color: string, bgColor: string, icon: Trend)

  /** The text and background colours each trend is drawn with. */
  function TrendColors(t: Trend): (string, string) {
    match t
    case Neutral => ("#6b7280", "#f3f4f6")
    case Up => ("#16a34a", "#f0fdf4")
    case Down => ("#dc2626", "#fef2f2")
  }

  /** `formatPriceChange`: classifies a change by its sign. */
  function FormatPriceChange(value: real): (r: PriceChange)
    ensures r.icon == Neutral <==> value == 0.0
    ensures r.icon == Up <==> value > 0.0
    ensures r.icon == Down <==> value < 0.0
    ensures r.isPositive <==> r.icon == Up
    ensures (r.color, r.bgColor) == TrendColors(r.icon)
  {
    var isPositive := value > 0.0;
    var isNeutral := value == 0.0;
    PriceChange(
      isPositive,
      if isNeutral then "#6b7280" else if isPositive then "#16a34a" else "#dc2626",
      if isNeutral then "#f3f4f6" else if isPositive then "#f0fdf4" else "#fef2f2",
      if isNeutral then Neutral else if isPositive then Up else Down)
  }
}
