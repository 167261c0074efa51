/** The wiring of src/App.tsx: the hook's state feeds the market list screen. These
    lemmas follow controller traces through to the sections the screen renders. */
module App {
  import opened Crypto
  import RC = RefreshController
  import HP = HomePage

  /** The sections the market list screen renders for a controller state. */
  function Screen(s: RC.State, searchTerm: string): HP.Sections {
    HP.Render(s.loading, s.error, s.cryptos, searchTerm)
  }

  /** Before anything settles, only the loading placeholders show. */
  lemma InitialScreenIsSkeleton(searchTerm: string)
    ensures Screen(RC.Initial, searchTerm) == HP.Sections(true, false, false, false, false, false)
  {
  }

  /** A first load that returns a non-empty list shows the list, the overview and the
      footer, and nothing else. */
  lemma FirstLoadShowsList(data: seq<Entry>)
    requires |data| > 0
    ensures Screen(RC.Run(RC.Initial, [RC.Mount, RC.Succeed(data)]), []) ==
              HP.Sections(false, false, true, true, false, true)
  {
    RC.NonOverlappingSuccess(RC.Initial, false, data);
  }

  /** A background refresh keeps the list on screen while it is pending. */
  lemma BackgroundRefreshKeepsList(s: RC.State, searchTerm: string)
    requires Screen(s, searchTerm).list
    ensures Screen(RC.Step(s, RC.RefreshData), searchTerm).list
  {
  }

  /** A failed background refresh keeps the old list in the state but replaces it on
      screen by the error panel, unless the error message is empty. */
  lemma FailedRefreshHidesList(s: RC.State, message: string, searchTerm: string)
    requires |s.cryptos| > 0
    ensures var r := RC.Run(s, [RC.RefreshData, RC.Fail(RC.ErrorThrown(message))]);
            && r.cryptos == s.cryptos
            && (message != [] ==> Screen(r, searchTerm).errorPanel && !Screen(r, searchTerm).list)
            && (message == [] ==> !Screen(r, searchTerm).errorPanel && Screen(r, searchTerm).list)
  {
    RC.NonOverlappingFailure(s, true, RC.ErrorThrown(message));
  }

  /** Retrying after a failure clears the error panel and brings the placeholders back. */
  lemma RetryShowsSkeleton(s: RC.State, searchTerm: string)
    ensures var v := Screen(RC.Step(s, RC.RetryFetch), searchTerm);
            v.skeleton && !v.errorPanel && !v.list
  {
  }
}
