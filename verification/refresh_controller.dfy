/** The `useCryptoData` hook (src/hooks/useCryptoData.ts) as a transition system.

    `fetchData(showRefreshing)` is split at its `await`: `Start` is the part that runs
    before the network request, and `Succeed` / `Fail` are the `try` / `catch` branches
    together with the `finally` block, run when the request settles. Requests may
    overlap (the interval does not wait for a pending fetch), so a trace is any
    interleaving of these events; `Run` folds a trace over the state. */
module RefreshController {
  import opened Crypto

  /** The four pieces of React state the hook owns. */
  datatype State = State(cryptos: seq<Entry>, loading: bool, error: Option<string>, isRefreshing: bool)

  /** What the awaited request threw: an `Error` object carries its message, any other
      thrown value does not. */
  datatype Failure = ErrorThrown(message: string) | NonErrorThrown

  datatype Event =
    | Start(showRefreshing: bool)   // `fetchData(showRefreshing)` up to the await
    | Succeed(data: seq<Entry>)     // the request resolved with `data`
    | Fail(failure: Failure)        // the request rejected

  const DefaultFailureMessage: string := "Failed to load data"

  /** Period of the refresh interval, in milliseconds. */
  const RefreshIntervalMs: nat := 30000

  /** The state before the first render's effect runs. */
  const Initial: State := State([], true, None, false)

  /** The effect's first `fetchData()` on mount: a foreground load. */
  const Mount: Event := Start(false)

  /** Each firing of the interval: `fetchData(true)`, a background refresh. */
  const IntervalTick: Event := Start(true)

  /** `refreshData`: a background refresh. */
  const RefreshData: Event := Start(true)

  /** `retryFetch`: a foreground load, which brings the full-screen spinner back. */
  const RetryFetch: Event := Start(false)

  predicate IsCompletion(e: Event) {
    e.Succeed? || e.Fail?
  }

  /** Raises the flag the caller asked for and clears the error; the list is untouched. */
  function BeginFetch(s: State, showRefreshing: bool): (r: State)
    ensures r.cryptos == s.cryptos && r.error == None
    ensures showRefreshing ==> r.isRefreshing && r.loading == s.loading
    ensures !showRefreshing ==> r.loading && r.isRefreshing == s.isRefreshing
  {
    if showRefreshing then s.(isRefreshing := true, error := None)
    else s.(loading := true, error := None)
  }

  function FailureMessage(f: Failure): (m: string)
    ensures f.ErrorThrown? ==> m == f.message
    ensures f.NonErrorThrown? ==> m == DefaultFailureMessage
  {
    match f
    case ErrorThrown(msg) => msg
    case NonErrorThrown => DefaultFailureMessage
  }

  /** The `try` branch and the `finally` block: the list is replaced wholesale and both
      flags drop, whatever other request is still pending. The error is left alone. */
  function CompleteSuccess(s: State, data: seq<Entry>): (r: State)
    ensures r.cryptos == data
    ensures !r.loading && !r.isRefreshing
    ensures r.error == s.error
  {
    State(data, false, s.error, false)
  }

  /** The `catch` branch and the `finally` block: the list is kept, the error records
      the failure, and both flags drop. */
  function CompleteFailure(s: State, f: Failure): (r: State)
    ensures r.cryptos == s.cryptos
    ensures r.error == Some(FailureMessage(f))
    ensures !r.loading && !r.isRefreshing
  {
    State(s.cryptos, false, Some(FailureMessage(f)), false)
  }

  function Step(s: State, e: Event): State {
    match e
    case Start(showRefreshing) => BeginFetch(s, showRefreshing)
    case Succeed(data) => CompleteSuccess(s, data)
    case Fail(f) => CompleteFailure(s, f)
  }

  /** The state after the events of `evs`, in order. */
  function Run(s: State, evs: seq<Event>): State
    decreases |evs|
  {
    if evs == [] then s else Run(Step(s, evs[0]), evs[1..])
  }

  lemma {:induction false} RunAppend(s: State, evs: seq<Event>, e: Event)
    ensures Run(s, evs + [e]) == Step(Run(s, evs), e)
    decreases |evs|
  {
    if evs == [] {
      assert evs + [e] == [e];
    } else {
      assert (evs + [e])[1..] == evs[1..] + [e];
      RunAppend(Step(s, evs[0]), evs[1..], e);
    }
  }

  lemma RunOne(s: State, a: Event)
    ensures Run(s, [a]) == Step(s, a)
  {
    assert [a][1..] == [];
  }

  lemma RunTwo(s: State, a: Event, b: Event)
    ensures Run(s, [a, b]) == Step(Step(s, a), b)
  {
    assert [a, b][1..] == [b];
    RunOne(Step(s, a), b);
  }

  lemma RunThree(s: State, a: Event, b: Event, c: Event)
    ensures Run(s, [a, b, c]) == Step(Step(Step(s, a), b), c)
  {
    assert [a, b, c][1..] == [b, c];
    RunTwo(Step(s, a), b, c);
  }

  // ---------------------------------------------------------------------------
  // Reference definitions over whole traces
  // ---------------------------------------------------------------------------

  /** The payload of the last successful request in `evs`, or `current` if none succeeded. */
  function LastPayload(evs: seq<Event>, current: seq<Entry>): seq<Entry>
    decreases |evs|
  {
    if evs == [] then current
    else if evs[|evs| - 1].Succeed? then evs[|evs| - 1].data
    else LastPayload(evs[..|evs| - 1], current)
  }

  /** The error left by the last start or failure in `evs`: a start clears it and a
      failure sets it; successes do not touch it. */
  function LastErrorOutcome(evs: seq<Event>, current: Option<string>): Option<string>
    decreases |evs|
  {
    if evs == [] then current
    else match evs[|evs| - 1]
      case Start(_) => None
      case Fail(f) => Some(FailureMessage(f))
      case Succeed(_) => LastErrorOutcome(evs[..|evs| - 1], current)
  }

  /** Some request in `evs` settles after position `i`. */
  ghost predicate SettledAfter(evs: seq<Event>, i: int) {
    exists j :: 0 <= j < |evs| && i < j && IsCompletion(evs[j])
  }

  /** The request started at position `i` with flag `showRefreshing`, and no request
      of any kind has settled since. */
  ghost predicate Unanswered(evs: seq<Event>, i: int, showRefreshing: bool) {
    0 <= i < |evs| && evs[i] == Start(showRefreshing) && !SettledAfter(evs, i)
  }

  /** Last write wins: after any trace, the list is the payload of the last successful
      request, or the list the trace started from if no request succeeded. */
  lemma {:induction false} LastWriteWins(s: State, evs: seq<Event>)
    ensures Run(s, evs).cryptos == LastPayload(evs, s.cryptos)
    decreases |evs|
  {
    if evs != [] {
      var init := evs[..|evs| - 1];
      assert evs == init + [evs[|evs| - 1]];
      RunAppend(s, init, evs[|evs| - 1]);
      LastWriteWins(s, init);
    }
  }

  /** After any trace, the error is that of the last start or failure. */
  lemma {:induction false} ErrorFollowsLastOutcome(s: State, evs: seq<Event>)
    ensures Run(s, evs).error == LastErrorOutcome(evs, s.error)
    decreases |evs|
  {
    if evs != [] {
      var init := evs[..|evs| - 1];
      assert evs == init + [evs[|evs| - 1]];
      RunAppend(s, init, evs[|evs| - 1]);
      ErrorFollowsLastOutcome(s, init);
    }
  }

  lemma SettledAfterAppend(evs: seq<Event>, e: Event, i: int)
    requires -1 <= i < |evs|
    ensures SettledAfter(evs + [e], i) <==> SettledAfter(evs, i) || IsCompletion(e)
  {
    var evs' := evs + [e];
    if IsCompletion(e) {
      assert IsCompletion(evs'[|evs|]);
    }
    if SettledAfter(evs', i) {
      var j :| i < j < |evs'| && IsCompletion(evs'[j]);
      if j < |evs| {
        assert IsCompletion(evs[j]);
      }
    }
    if SettledAfter(evs, i) {
      var j :| i < j < |evs| && IsCompletion(evs[j]);
      assert evs'[j] == evs[j];
    }
  }

  /** Both flags are exactly "some request of that kind started and nothing settled
      since" (or the flag was already up and nothing settled at all). A completion
      therefore lowers both flags even while another request is still pending. */
  lemma {:induction false} FlagsTrackUnansweredStarts(s: State, evs: seq<Event>)
    ensures Run(s, evs).loading <==>
              (s.loading && !SettledAfter(evs, -1)) || exists i :: Unanswered(evs, i, false)
    ensures Run(s, evs).isRefreshing <==>
              (s.isRefreshing && !SettledAfter(evs, -1)) || exists i :: Unanswered(evs, i, true)
    decreases |evs|
  {
    if evs == [] {
      assert !SettledAfter(evs, -1);
    } else {
      var init := evs[..|evs| - 1];
      var e := evs[|evs| - 1];
      assert evs == init + [e];
      RunAppend(s, init, e);
      FlagsTrackUnansweredStarts(s, init);
      SettledAfterAppend(init, e, -1);
      UnansweredAppend(init, e, false);
      UnansweredAppend(init, e, true);
    }
  }

  /** One more event leaves a request of kind `b` unanswered exactly when it is such a
      start, or when it settles nothing and one was unanswered before. */
  lemma UnansweredAppend(init: seq<Event>, e: Event, b: bool)
    ensures (exists i :: Unanswered(init + [e], i, b)) <==>
              (!IsCompletion(e) && exists i :: Unanswered(init, i, b)) || e == Start(b)
  {
    var evs := init + [e];
    if e == Start(b) {
      SettledAfterAppend(init, e, |init| - 1);
      assert !SettledAfter(init, |init| - 1);
      assert Unanswered(evs, |init|, b);
    }
    if exists i :: Unanswered(evs, i, b) {
      var i :| Unanswered(evs, i, b);
      if i < |init| {
        SettledAfterAppend(init, e, i);
        assert Unanswered(init, i, b);
      }
    }
    if !IsCompletion(e) && exists i :: Unanswered(init, i, b) {
      var i :| Unanswered(init, i, b);
      SettledAfterAppend(init, e, i);
      assert Unanswered(evs, i, b);
    }
  }

  // ---------------------------------------------------------------------------
  // Consequences
  // ---------------------------------------------------------------------------

  /** A start followed by its own success, with nothing in between, leaves the fresh
      list, no error and both flags down, whatever the state before. */
  lemma NonOverlappingSuccess(s: State, showRefreshing: bool, data: seq<Entry>)
    ensures Run(s, [Start(showRefreshing), Succeed(data)]) == State(data, false, None, false)
  {
    RunTwo(s, Start(showRefreshing), Succeed(data));
  }

  /** A start followed by its own failure keeps the list and reports the failure. */
  lemma NonOverlappingFailure(s: State, showRefreshing: bool, f: Failure)
    ensures Run(s, [Start(showRefreshing), Fail(f)]) ==
              State(s.cryptos, false, Some(FailureMessage(f)), false)
  {
    RunTwo(s, Start(showRefreshing), Fail(f));
  }

  /** Two overlapping requests: when the first settles, both flags drop although the
      second is still pending. */
  lemma OverlapClearsFlagsEarly(s: State, data: seq<Entry>)
    ensures var r := Run(s, [RetryFetch, IntervalTick, Succeed(data)]);
            !r.loading && !r.isRefreshing
  {
    var evs := [RetryFetch, IntervalTick, Succeed(data)];
    FlagsTrackUnansweredStarts(s, evs);
    assert IsCompletion(evs[2]);
    assert SettledAfter(evs, 0) && SettledAfter(evs, 1) && SettledAfter(evs, -1);
  }

  /** Overlapping requests can leave an error on screen next to fresh data: the older
      request fails after the newer one started, then the newer one succeeds. */
  lemma OverlapCanKeepError(s: State, f: Failure, data: seq<Entry>)
    ensures var r := Run(s, [RetryFetch, IntervalTick, Fail(f), Succeed(data)]);
            r.cryptos == data && r.error == Some(FailureMessage(f))
  {
    var evs := [RetryFetch, IntervalTick, Fail(f), Succeed(data)];
    LastWriteWins(s, evs);
    ErrorFollowsLastOutcome(s, evs);
    assert evs[..3][..2] == [RetryFetch, IntervalTick];
  }

  /** `retryFetch` after the first load has settled raises `loading` again. */
  lemma RetryRaisesLoadingAgain(f: Failure)
    ensures Run(Initial, [Mount, Fail(f)]).loading == false
    ensures Run(Initial, [Mount, Fail(f), RetryFetch]).loading == true
  {
    RunTwo(Initial, Mount, Fail(f));
    RunThree(Initial, Mount, Fail(f), RetryFetch);
  }

  /** The starts issued from mount until `elapsedMs` milliseconds later: one foreground
      load, then one background refresh per full interval. */
  function IssuedStarts(elapsedMs: nat): (evs: seq<Event>)
    ensures |evs| == 1 + elapsedMs / RefreshIntervalMs
    ensures evs[0] == Start(false)
    ensures forall i :: 1 <= i < |evs| ==> evs[i] == Start(true)
  {
    [Mount] + seq(elapsedMs / RefreshIntervalMs, _ => IntervalTick)
  }

  /** While no request has settled, the screen stays in its first-load state, and the
      refreshing indicator is up exactly once the first interval has fired. */
  lemma BeforeFirstResponse(elapsedMs: nat)
    ensures Run(Initial, IssuedStarts(elapsedMs)) ==
              State([], true, None, elapsedMs >= RefreshIntervalMs)
  {
    var evs := IssuedStarts(elapsedMs);
    FlagsTrackUnansweredStarts(Initial, evs);
    LastWriteWins(Initial, evs);
    ErrorFollowsLastOutcome(Initial, evs);
    assert !SettledAfter(evs, -1);
    if elapsedMs >= RefreshIntervalMs {
      assert Unanswered(evs, 1, true);
    }
    assert LastErrorOutcome(evs, None) == None by {
      if |evs| > 0 {
        assert evs[|evs| - 1].Start?;
      }
    }
    LastPayloadOfStarts(evs, []);
  }

  lemma {:induction false} LastPayloadOfStarts(evs: seq<Event>, current: seq<Entry>)
    requires forall i :: 0 <= i < |evs| ==> evs[i].Start?
    ensures LastPayload(evs, current) == current
    decreases |evs|
  {
    if evs != [] {
      LastPayloadOfStarts(evs[..|evs| - 1], current);
    }
  }
}
