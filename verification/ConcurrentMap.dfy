/** The bounded concurrent map: workers that share one counter
    (`mapPool`, scripts/rewrite-system-prompt.ts:235-253; `mapConcurrent`,
    scripts/ci-release-publish.ts:189-212). A worker runs without interruption between two
    awaits, so one step is either taking an index or settling a call. */
module ConcurrentMap {
  import opened Basics

  /** A worker about to take an index, awaiting a call, out of work, or rejected. */
  datatype Worker = Ready | Awaiting(index: nat) | Stopped | Rejected(index: nat)

  /** `started` and `settled` record the calls in the order they begin and end. */
  datatype Pool<R> = Pool(next: nat, workers: seq<Worker>, results: seq<Option<R>>, started: seq<nat>, settled: seq<nat>)

  datatype Action = Take(w: nat) | Settle(w: nat)

  /** What the call on each index comes to: a value, or a rejection. */
  type Calls<R> = seq<Option<R>>

  predicate Enabled<R>(s: Pool<R>, a: Action) {
    a.w < |s.workers| && if a.Take? then s.workers[a.w].Ready? else s.workers[a.w].Awaiting?
  }

  function Do<R>(calls: Calls<R>, s: Pool<R>, a: Action): Pool<R>
    requires Enabled(s, a) && |s.results| == |calls|
  {
    match a
    case Take(w) =>
      if s.next < |calls| then s.(next := s.next + 1, workers := s.workers[w := Awaiting(s.next)], started := s.started + [s.next])
      else s.(next := s.next + 1, workers := s.workers[w := Stopped])
    case Settle(w) =>
      var i := s.workers[w].index;
      if i < |calls| && calls[i].Some? then s.(workers := s.workers[w := Ready], results := s.results[i := calls[i]], settled := s.settled + [i])
      else s.(workers := s.workers[w := Rejected(i)], settled := s.settled + [i])
  }

  function Initial<R>(calls: Calls<R>, width: nat): Pool<R> {
    Pool(0, seq(width, i => Ready), seq(|calls|, i => None), [], [])
  }

  /** `Math.max(1, Math.min(limit, items.length))` */
  function PoolWidth(limit: int, n: nat): (w: nat)
    ensures w >= 1
  {
    var m := if limit < n then limit else n;
    if m < 1 then 1 else m
  }

  /** `Math.min(concurrency, items.length)`, the length of an array: none for a negative one. */
  function ConcurrentWidth(concurrency: int, n: nat): nat {
    var m := if concurrency < n then concurrency else n;
    if m < 0 then 0 else m
  }

  // --------------------------------------------------------------- invariant

  /** The worker that awaits the call on `i`. */
  predicate AwaitedBy<R>(s: Pool<R>, w: nat, i: nat) {
    w < |s.workers| && s.workers[w] == Awaiting(i)
  }

  /** The calls begun are 0, 1, 2, ... in order. */
  ghost predicate Begun<R>(calls: Calls<R>, s: Pool<R>) {
    && |s.results| == |calls|
    && |s.started| == (if s.next < |calls| then s.next else |calls|)
    && forall k :: 0 <= k < |s.started| ==> s.started[k] == k
  }

  /** A call begun is awaited by exactly one worker or settled once, never both. */
  ghost predicate Owned<R>(s: Pool<R>) {
    && (forall w: nat, i: nat :: AwaitedBy(s, w, i) ==> i < |s.started| && i !in s.settled)
    && (forall w: nat, v: nat, i: nat :: AwaitedBy(s, w, i) && AwaitedBy(s, v, i) ==> w == v)
    && (forall i: nat :: i < |s.started| && i !in s.settled ==> exists w: nat :: AwaitedBy(s, w, i))
    && (forall i :: i in s.settled ==> i < |s.started|)
    && (forall j, k :: 0 <= j < k < |s.settled| ==> s.settled[j] != s.settled[k])
  }

  /** A result is there exactly for a settled call that did not reject. */
  ghost predicate Recorded<R>(calls: Calls<R>, s: Pool<R>)
    requires |s.results| == |calls|
  {
    forall i :: 0 <= i < |calls| ==> s.results[i] == if i in s.settled then calls[i] else None
  }

  ghost predicate RejectedAt<R>(s: Pool<R>, w: nat, i: nat) {
    w < |s.workers| && s.workers[w] == Rejected(i)
  }

  /** A worker ends on a rejected call, or when there is no more work. */
  ghost predicate Ended<R>(calls: Calls<R>, s: Pool<R>) {
    && (forall i: nat :: i < |calls| && i in s.settled && calls[i].None? ==> exists w: nat :: RejectedAt(s, w, i))
    && (forall w: nat, i: nat :: RejectedAt(s, w, i) ==> i < |calls| && calls[i].None?)
    && (forall w: nat :: w < |s.workers| && s.workers[w].Stopped? ==> s.next >= |calls|)
  }

  ghost predicate Inv<R>(calls: Calls<R>, s: Pool<R>) {
    Begun(calls, s) && Owned(s) && Recorded(calls, s) && Ended(calls, s)
  }

  lemma InitialInv<R>(calls: Calls<R>, width: nat)
    ensures Inv(calls, Initial(calls, width))
  {}

  lemma StepKeepsBegun<R>(calls: Calls<R>, s: Pool<R>, a: Action)
    requires Inv(calls, s) && Enabled(s, a)
    ensures Begun(calls, Do(calls, s, a))
  {}

  lemma StepKeepsOwned<R>(calls: Calls<R>, s: Pool<R>, a: Action)
    requires Inv(calls, s) && Enabled(s, a)
    ensures Owned(Do(calls, s, a))
  {
    hide Recorded, Ended;
    var t := Do(calls, s, a);
    match a
    case Take(w) =>
      forall i: nat | i < |t.started| && i !in t.settled ensures exists v: nat :: AwaitedBy(t, v, i) {
        if i == s.next {
          assert AwaitedBy(t, w, i);
        } else {
          var v: nat :| AwaitedBy(s, v, i);
          assert AwaitedBy(t, v, i);
        }
      }
      assert forall v: nat, i: nat :: AwaitedBy(t, v, i) && v != w ==> AwaitedBy(s, v, i);
    case Settle(w) =>
      var done := s.workers[w].index;
      assert AwaitedBy(s, w, done);
      assert forall v: nat, i: nat :: AwaitedBy(t, v, i) ==> v != w && AwaitedBy(s, v, i);
      forall i: nat | i < |t.started| && i !in t.settled ensures exists v: nat :: AwaitedBy(t, v, i) {
        var v: nat :| AwaitedBy(s, v, i);
        assert AwaitedBy(t, v, i);
      }
  }

  lemma StepKeepsRecorded<R>(calls: Calls<R>, s: Pool<R>, a: Action)
    requires Inv(calls, s) && Enabled(s, a)
    ensures Begun(calls, Do(calls, s, a)) && Recorded(calls, Do(calls, s, a))
  {
    hide Ended;
    if a.Settle? {
      assert AwaitedBy(s, a.w, s.workers[a.w].index);
    }
  }

  lemma StepKeepsEnded<R>(calls: Calls<R>, s: Pool<R>, a: Action)
    requires Inv(calls, s) && Enabled(s, a)
    ensures Ended(calls, Do(calls, s, a))
  {
    hide Recorded;
    var t := Do(calls, s, a);
    if a.Settle? {
      assert AwaitedBy(s, a.w, s.workers[a.w].index);
    }
    forall i: nat | i < |calls| && i in t.settled && calls[i].None? ensures exists v: nat :: RejectedAt(t, v, i) {
      if i in s.settled {
        var v: nat :| RejectedAt(s, v, i);
        assert RejectedAt(t, v, i);
      } else {
        assert RejectedAt(t, a.w, i);
      }
    }
    assert forall v: nat, i: nat :: RejectedAt(t, v, i) && v != a.w ==> RejectedAt(s, v, i);
  }

  lemma StepKeepsInv<R>(calls: Calls<R>, s: Pool<R>, a: Action)
    requires Inv(calls, s) && Enabled(s, a)
    ensures Inv(calls, Do(calls, s, a))
  {
    StepKeepsBegun(calls, s, a);
    StepKeepsOwned(calls, s, a);
    StepKeepsRecorded(calls, s, a);
    StepKeepsEnded(calls, s, a);
  }

  // -------------------------------------------------------------------- runs

  /** The state after some actions, when each is enabled in its turn. */
  function Run<R>(calls: Calls<R>, s: Pool<R>, actions: seq<Action>): Option<Pool<R>>
    decreases |actions|
  {
    if actions == [] then Some(s)
    else if |s.results| == |calls| && Enabled(s, actions[0]) then Run(calls, Do(calls, s, actions[0]), actions[1..])
    else None
  }

  /** `s` is reached from a fresh pool of `width` workers by some interleaving of them. */
  ghost predicate Reaches<R>(calls: Calls<R>, width: nat, actions: seq<Action>, s: Pool<R>) {
    Run(calls, Initial(calls, width), actions) == Some(s)
  }

  /** No worker can move: every one has stopped or was rejected. */
  predicate Finished<R>(s: Pool<R>) {
    forall w :: 0 <= w < |s.workers| ==> s.workers[w].Stopped? || s.workers[w].Rejected?
  }

  lemma {:induction false} RunKeepsInv<R>(calls: Calls<R>, s: Pool<R>, actions: seq<Action>)
    requires Inv(calls, s)
    ensures var t := Run(calls, s, actions); t.Some? ==> Inv(calls, t.value) && |t.value.workers| == |s.workers|
    decreases |actions|
  {
    hide Inv;
    InvMeans(calls, s);
    if actions != [] && Enabled(s, actions[0]) {
      StepKeepsInv(calls, s, actions[0]);
      RunKeepsInv(calls, Do(calls, s, actions[0]), actions[1..]);
    }
  }

  lemma InvMeans<R>(calls: Calls<R>, s: Pool<R>)
    requires Inv(calls, s)
    ensures |s.results| == |calls|
  {}

  lemma ReachedInv<R>(calls: Calls<R>, width: nat, actions: seq<Action>, s: Pool<R>)
    requires Reaches(calls, width, actions, s)
    ensures Inv(calls, s) && |s.workers| == width
  {
    InitialInv(calls, width);
    RunKeepsInv(calls, Initial(calls, width), actions);
  }

  /** At every moment: no call is begun twice, or settled twice, or settled before it is begun. */
  lemma EachCallOnce<R>(calls: Calls<R>, width: nat, actions: seq<Action>, s: Pool<R>)
    requires Reaches(calls, width, actions, s)
    ensures forall j, k :: 0 <= j < k < |s.started| ==> s.started[j] != s.started[k]
    ensures forall j, k :: 0 <= j < k < |s.settled| ==> s.settled[j] != s.settled[k]
    ensures forall i :: i in s.settled ==> i in s.started
    ensures forall i :: i in s.started ==> i < |calls|
  {
    ReachedInv(calls, width, actions, s);
    forall i | i in s.settled ensures i in s.started {
      assert s.started[i] == i;
    }
  }

  function AwaitedUpTo<R>(s: Pool<R>, n: nat): set<nat>
    requires n <= |s.workers|
  {
    if n == 0 then {}
    else AwaitedUpTo(s, n - 1) + if s.workers[n - 1].Awaiting? then {s.workers[n - 1].index} else {}
  }

  lemma {:induction false} FewAwaited<R>(s: Pool<R>, n: nat)
    requires n <= |s.workers|
    ensures |AwaitedUpTo(s, n)| <= n
    ensures forall w: nat, i: nat :: w < n && AwaitedBy(s, w, i) ==> i in AwaitedUpTo(s, n)
  {
    if n > 0 {
      FewAwaited(s, n - 1);
    }
  }

  /** The calls begun and not settled. */
  function InFlight<R>(s: Pool<R>): set<nat> {
    set i | i in s.started && i !in s.settled
  }

  /** At every moment at most `width` calls are in flight. */
  lemma AtMostWidthInFlight<R>(calls: Calls<R>, width: nat, actions: seq<Action>, s: Pool<R>)
    requires Reaches(calls, width, actions, s)
    ensures |InFlight(s)| <= width
  {
    ReachedInv(calls, width, actions, s);
    FewAwaited(s, width);
    forall i | i in InFlight(s) ensures i in AwaitedUpTo(s, width) {
      var w: nat :| AwaitedBy(s, w, i);
    }
    SubsetSize(InFlight(s), AwaitedUpTo(s, width));
  }

  lemma {:induction false} SubsetSize<T>(a: set<T>, b: set<T>)
    requires a <= b
    ensures |a| <= |b|
    decreases a
  {
    if a != {} {
      var x :| x in a;
      SubsetSize(a - {x}, b - {x});
    }
  }

  /** The calls one after the other: all their values, or none if one of them rejects. */
  function Sequentially<R>(calls: Calls<R>): Option<seq<R>> {
    if calls == [] then Some([])
    else
      var rest := Sequentially(calls[1..]);
      if calls[0].None? || rest.None? then None else Some([calls[0].value] + rest.value)
  }

  /** What the caller gets: a rejection, the values in input order, or the error about a slot
      that was never filled. */
  datatype Outcome<R> = Values(values: seq<R>) | Rejection | MissingResult

  function Collect<R>(s: Pool<R>): Outcome<R> {
    if exists w :: 0 <= w < |s.workers| && s.workers[w].Rejected? then Rejection
    else if Sequentially(s.results).None? then MissingResult
    else Values(Sequentially(s.results).value)
  }

  lemma {:induction false} SequentialRejects<R>(calls: Calls<R>)
    ensures Sequentially(calls).None? <==> exists i :: 0 <= i < |calls| && calls[i].None?
  {
    if calls != [] {
      SequentialRejects(calls[1..]);
      if Sequentially(calls).None? && calls[0].Some? {
        var i :| 0 <= i < |calls[1..]| && calls[1..][i].None?;
        assert calls[i + 1].None?;
      }
      if i :| 0 <= i < |calls| && calls[i].None? {
        if i > 0 {
          assert calls[1..][i - 1].None?;
        }
      }
    }
  }

  /** Whatever the interleaving, a finished pool with at least one worker gives exactly what
      calling one after the other gives; the missing-result error cannot happen. */
  lemma ConcurrentIsSequential<R>(calls: Calls<R>, width: nat, actions: seq<Action>, s: Pool<R>)
    requires Reaches(calls, width, actions, s) && Finished(s) && width >= 1
    ensures Collect(s) == match Sequentially(calls) { case Some(values) => Values(values) case None => Rejection }
  {
    ReachedInv(calls, width, actions, s);
    SequentialRejects(calls);
    if exists w :: 0 <= w < |s.workers| && s.workers[w].Rejected? {
      var w :| 0 <= w < |s.workers| && s.workers[w].Rejected?;
      assert RejectedAt(s, w, s.workers[w].index);
    } else {
      assert s.workers[0].Stopped?;
      assert forall w: nat, i: nat :: !AwaitedBy(s, w, i) && !RejectedAt(s, w, i);
      assert forall i: nat :: i < |calls| ==> i in s.settled;
      assert s.results == calls;
    }
  }

  /** The missing-result error appears exactly when there is work and no worker: for a
      concurrency below one. */
  lemma MissingResultExactly<R>(calls: Calls<R>, concurrency: int, actions: seq<Action>, s: Pool<R>)
    requires Reaches(calls, ConcurrentWidth(concurrency, |calls|), actions, s) && Finished(s)
    ensures Collect(s).MissingResult? <==> concurrency < 1 && |calls| > 0
  {
    var width := ConcurrentWidth(concurrency, |calls|);
    if width >= 1 {
      ConcurrentIsSequential(calls, width, actions, s);
    } else {
      ReachedInv(calls, width, actions, s);
      assert forall a: Action :: !Enabled(Initial(calls, width), a);
      SequentialRejects(s.results);
      if |calls| > 0 {
        assert s.results[0].None?;
      }
    }
  }

  // ------------------------------------------------------------- termination

  function Weight(w: Worker): nat {
    match w
    case Ready => 1
    case Awaiting(_) => 2
    case Stopped => 0
    case Rejected(_) => 0
  }

  function WeightUpTo<R>(s: Pool<R>, n: nat): nat
    requires n <= |s.workers|
  {
    if n == 0 then 0 else WeightUpTo(s, n - 1) + Weight(s.workers[n - 1])
  }

  /** How many more steps there can be. */
  function Fuel<R>(calls: Calls<R>, s: Pool<R>): int {
    2 * (|calls| - |s.started|) + WeightUpTo(s, |s.workers|)
  }

  lemma {:induction false} WeightUpdate<R>(s: Pool<R>, t: Pool<R>, w: nat, n: nat)
    requires |s.workers| == |t.workers| && w < |s.workers| && n <= |s.workers|
    requires t.workers == s.workers[w := t.workers[w]]
    ensures WeightUpTo(t, n) == WeightUpTo(s, n) + if w < n then Weight(t.workers[w]) - Weight(s.workers[w]) else 0
  {
    if n > 0 {
      WeightUpdate(s, t, w, n - 1);
    }
  }

  lemma StepBurns<R>(calls: Calls<R>, s: Pool<R>, a: Action)
    requires Inv(calls, s) && Enabled(s, a)
    ensures 0 <= Fuel(calls, Do(calls, s, a)) < Fuel(calls, s)
  {
    var t := Do(calls, s, a);
    StepKeepsBegun(calls, s, a);
    WeightUpdate(s, t, a.w, |s.workers|);
  }

  /** Every interleaving ends: no run has more than two steps for each call and one for each worker. */
  lemma {:induction false} RunsEnd<R>(calls: Calls<R>, s: Pool<R>, actions: seq<Action>)
    requires Inv(calls, s) && Run(calls, s, actions).Some?
    ensures |actions| <= Fuel(calls, s)
    decreases |actions|
  {
    hide Inv, Fuel;
    if actions != [] {
      StepBurns(calls, s, actions[0]);
      StepKeepsInv(calls, s, actions[0]);
      RunsEnd(calls, Do(calls, s, actions[0]), actions[1..]);
    } else {
      FuelIsNat(calls, s);
    }
  }

  lemma FuelIsNat<R>(calls: Calls<R>, s: Pool<R>)
    requires Inv(calls, s)
    ensures Fuel(calls, s) >= 0
  {}

  /** And it can only end finished: an unfinished pool has a worker that can move. */
  lemma UnfinishedCanMove<R>(s: Pool<R>)
    ensures !Finished(s) <==> exists a :: Enabled(s, a)
  {
    if !Finished(s) {
      var w :| 0 <= w < |s.workers| && !(s.workers[w].Stopped? || s.workers[w].Rejected?);
      assert Enabled(s, if s.workers[w].Ready? then Take(w) else Settle(w));
    }
  }

  /** No run of a fresh pool has more than two steps for each call and one for each worker. */
  lemma FreshRunsEnd<R>(calls: Calls<R>, width: nat, actions: seq<Action>, s: Pool<R>)
    requires Reaches(calls, width, actions, s)
    ensures |actions| <= 2 * |calls| + width
  {
    InitialInv(calls, width);
    RunsEnd(calls, Initial(calls, width), actions);
    ReadyWeight(Initial(calls, width), width);
  }

  lemma {:induction false} ReadyWeight<R>(s: Pool<R>, n: nat)
    requires n <= |s.workers| && forall w :: 0 <= w < |s.workers| ==> s.workers[w].Ready?
    ensures WeightUpTo(s, n) == n
  {
    if n > 0 {
      ReadyWeight(s, n - 1);
    }
  }
}
