/** `wait_any2` over the scheduler: one background round, then a scan of the tokens. */
module WaitModel {
  import opened SlabModel
  import opened SchedulerModel
  import opened SchedulerPass
  import opened SchedulerPage
  import opened SchedulerCall

  /** `taken` are the indices whose results were stored, in order. */
  datatype Scan =
    | Scanned(s: Sched, taken: seq<nat>)
    | BadToken(s: Sched, taken: seq<nat>) // EINVAL; what was taken before is lost
    | Aborted(s: Sched)                   // a panic in `take` or `take_operation`

  /**
   The loop of `wait_any2` over the tokens, from index `i`, with room for `cap` results. Each turn
   makes a handle and ends with its destructor, by which time its key has been taken out: by `take`
   for a completed task, by `take_key` for a pending one.
   */
  function ScanFrom(s: Sched, qts: seq<nat>, cap: nat, i: nat, taken: seq<nat>): (r: Scan)
    requires i <= |qts|
    ensures r.s.legal == s.legal
    decreases |qts| - i, cap
  {
    if i == |qts| || |taken| == cap then Scanned(s, taken)
    else
      var h := HandleOf(s, qts[i]);
      if h.None? then BadToken(s, taken)
      else if qts[i] in s.completed then
        var s' := Destroy(Take(s, qts[i]), KeyTaken(h.value));
        if s'.panicked || Get(s.slab, qts[i]).value.kind.Background? then Aborted(s')
        else ScanFrom(s', qts, cap, i + 1, taken + [i])
      else ScanFrom(Destroy(s, KeyTaken(h.value)), qts, cap, i + 1, taken)
  }

  ghost predicate Increasing(xs: seq<nat>) {
    forall a, b :: 0 <= a < b < |xs| ==> xs[a] < xs[b]
  }

  /** The tokens at the taken indices. */
  ghost function Picked(qts: seq<nat>, taken: seq<nat>): (r: set<nat>) {
    set a | 0 <= a < |taken| && taken[a] < |qts| :: qts[taken[a]]
  }

  /** A token the scan cannot accept: it names nobody, or its result has been taken already. */
  ghost predicate Bad(s: Sched, qts: seq<nat>, i: nat) {
    && i < |qts|
    && (qts[i] !in Tasks(s) || (qts[i] in s.completed && exists j :: 0 <= j < i && qts[j] == qts[i]))
  }

  /** A token on which `take_operation` panics: it names a background task, and that has completed. */
  ghost predicate Wrong(s: Sched, qts: seq<nat>, i: nat) {
    i < |qts| && qts[i] in Tasks(s) && qts[i] in s.completed && Tasks(s)[qts[i]].kind.Background?
  }

  ghost predicate Clean(s: Sched, qts: seq<nat>, i: nat) {
    forall j :: 0 <= j < i ==> !Bad(s, qts, j) && !Wrong(s, qts, j)
  }

  /** What the scan has done when it reaches index `i`: all completed tokens so far are taken. */
  ghost predicate Reached(s0: Sched, s: Sched, qts: seq<nat>, i: nat, taken: seq<nat>) {
    && i <= |qts|
    && Inv(s)
    && Increasing(taken)
    && (forall a :: 0 <= a < |taken| ==> taken[a] < i && qts[taken[a]] in s0.completed)
    && (forall j :: 0 <= j < i ==> qts[j] in Tasks(s0) && (qts[j] in s0.completed ==> j in taken))
    && Tasks(s) == Tasks(s0) - Picked(qts, taken)
    && s.completed == s0.completed - Picked(qts, taken)
    && s.dropped == s0.dropped
    && s.legal == s0.legal
    && s.spawned == s0.spawned
    && Clean(s0, qts, i)
  }

  lemma PickedAppend(qts: seq<nat>, taken: seq<nat>, i: nat)
    requires i < |qts|
    ensures Picked(qts, taken + [i]) == Picked(qts, taken) + {qts[i]}
  {
    var more := taken + [i];
    assert more[|taken|] == i;
    forall t | t in Picked(qts, taken)
      ensures t in Picked(qts, more)
    {
      var a :| 0 <= a < |taken| && taken[a] < |qts| && qts[taken[a]] == t;
      assert more[a] == taken[a];
    }
  }

  /** A token that is still live when the scan comes to it is not bad. */
  lemma LiveIsNotBad(s0: Sched, s: Sched, qts: seq<nat>, i: nat, taken: seq<nat>)
    requires Reached(s0, s, qts, i, taken) && i < |qts| && qts[i] in Tasks(s)
    ensures !Bad(s0, qts, i)
  {
    forall j | 0 <= j < i && qts[j] in s0.completed
      ensures qts[j] in Picked(qts, taken)
    {
      assert j in taken;
      var a :| 0 <= a < |taken| && taken[a] == j;
    }
  }

  /** One that is not is. */
  lemma DeadIsBad(s0: Sched, s: Sched, qts: seq<nat>, i: nat, taken: seq<nat>)
    requires Reached(s0, s, qts, i, taken) && i < |qts| && qts[i] !in Tasks(s)
    ensures Bad(s0, qts, i)
  {
    if qts[i] in Tasks(s0) {
      assert qts[i] in Picked(qts, taken);
      var a :| 0 <= a < |taken| && taken[a] < |qts| && qts[taken[a]] == qts[i];
      assert taken[a] < i;
    }
  }

  lemma TakeReaches(s0: Sched, s: Sched, qts: seq<nat>, i: nat, taken: seq<nat>)
    requires Reached(s0, s, qts, i, taken) && i < |qts|
    requires qts[i] in Tasks(s) && qts[i] in s.completed && Tasks(s)[qts[i]].kind.Operation?
    ensures Reached(s0, Take(s, qts[i]), qts, i + 1, taken + [i])
  {
    LiveIsNotBad(s0, s, qts, i, taken);
    OperationNotDropped(s, qts[i]);
    TakeKeeps(s, qts[i]);
    PickedAppend(qts, taken, i);
    hide Bad, Inv;
    assert (taken + [i])[|taken|] == i;
    assert forall j :: j in taken ==> j in taken + [i];
  }

  lemma PassReaches(s0: Sched, s: Sched, qts: seq<nat>, i: nat, taken: seq<nat>)
    requires Reached(s0, s, qts, i, taken) && i < |qts|
    requires qts[i] in Tasks(s) && qts[i] !in s.completed
    ensures Reached(s0, s, qts, i + 1, taken)
  {
    LiveIsNotBad(s0, s, qts, i, taken);
    assert qts[i] !in Picked(qts, taken);
    hide Bad, Inv;
  }

  /** The completed tokens before the one at `at` do not fill the results. */
  ghost predicate Room(s: Sched, qts: seq<nat>, cap: nat, at: nat) {
    at <= |qts| && CompletedBefore(s, qts, at) < cap
  }

  ghost predicate Stopped(s0: Sched, r: Scan, qts: seq<nat>, cap: nat, at: nat) {
    if r.Aborted? then Panics(s0, qts, cap, at)
    else
      && Reached(s0, r.s, qts, at, r.taken)
      && |r.taken| <= cap
      && (r.Scanned? ==> at == |qts| || |r.taken| == cap)
      && (r.BadToken? ==> at < |qts| && |r.taken| < cap && qts[at] !in Tasks(r.s))
  }

  /** The scan comes to a completed background task. */
  lemma WrongPanics(s0: Sched, s: Sched, qts: seq<nat>, cap: nat, i: nat, taken: seq<nat>)
    requires Reached(s0, s, qts, i, taken) && i < |qts| && |taken| < cap
    requires qts[i] in Tasks(s) && qts[i] in s.completed && Tasks(s)[qts[i]].kind.Background?
    ensures ScanFrom(s, qts, cap, i, taken).Aborted? && Panics(s0, qts, cap, i)
  {
    GetIsLookup(s.slab, qts[i]);
    CountTaken(s0, qts, i, taken);
  }

  /** One turn of the scan. */
  lemma ScanTurn(s0: Sched, s: Sched, qts: seq<nat>, cap: nat, i: nat, taken: seq<nat>)
    requires Reached(s0, s, qts, i, taken) && i < |qts| && |taken| < cap
    ensures qts[i] !in Tasks(s) ==> ScanFrom(s, qts, cap, i, taken) == BadToken(s, taken)
    ensures qts[i] in Tasks(s) && qts[i] in s.completed ==>
      if Tasks(s)[qts[i]].kind.Background? then
        ScanFrom(s, qts, cap, i, taken).Aborted? && Panics(s0, qts, cap, i)
      else
        && Reached(s0, Take(s, qts[i]), qts, i + 1, taken + [i])
        && ScanFrom(s, qts, cap, i, taken) == ScanFrom(Take(s, qts[i]), qts, cap, i + 1, taken + [i])
    ensures qts[i] in Tasks(s) && qts[i] !in s.completed ==>
      && Reached(s0, s, qts, i + 1, taken)
      && ScanFrom(s, qts, cap, i, taken) == ScanFrom(s, qts, cap, i + 1, taken)
  {
    GetIsLookup(s.slab, qts[i]);
    if qts[i] in Tasks(s) {
      if qts[i] !in s.completed {
        PassReaches(s0, s, qts, i, taken);
      } else if Tasks(s)[qts[i]].kind.Background? {
        WrongPanics(s0, s, qts, cap, i, taken);
      } else {
        TakeReaches(s0, s, qts, i, taken);
      }
    }
  }

  /**
   Where the scan stops, for any tokens: at the end, at a full result array, at a token that
   names nobody, or at one that names a completed background task.
   */
  lemma {:induction false} ScanStops(s0: Sched, s: Sched, qts: seq<nat>, cap: nat, i: nat, taken: seq<nat>)
    returns (at: nat)
    requires Reached(s0, s, qts, i, taken) && |taken| <= cap
    ensures Stopped(s0, ScanFrom(s, qts, cap, i, taken), qts, cap, at)
    decreases |qts| - i
  {
    at := i;
    if i < |qts| && |taken| < cap {
      ScanTurn(s0, s, qts, cap, i, taken);
      hide Reached, ScanFrom, Panics;
      if qts[i] in Tasks(s) {
        if qts[i] !in s.completed {
          at := ScanStops(s0, s, qts, cap, i + 1, taken);
        } else if Tasks(s)[qts[i]].kind.Operation? {
          at := ScanStops(s0, Take(s, qts[i]), qts, cap, i + 1, taken + [i]);
        }
      }
    }
  }

  ghost predicate DistinctTokens(qts: seq<nat>) {
    forall i, j :: 0 <= i < j < |qts| ==> qts[i] != qts[j]
  }

  /** Pairwise distinct tokens of live operations. */
  ghost predicate Tokens(s: Sched, qts: seq<nat>) {
    && DistinctTokens(qts)
    && forall i :: 0 <= i < |qts| ==> qts[i] in Tasks(s) && Tasks(s)[qts[i]].kind.Operation?
  }

  /** The completed tokens are taken first come, first served, up to the room there is. */
  ghost predicate FirstCompleted(s: Sched, qts: seq<nat>, cap: nat, taken: seq<nat>) {
    && Increasing(taken)
    && |taken| <= cap
    && (forall a :: 0 <= a < |taken| ==> taken[a] < |qts| && qts[taken[a]] in s.completed)
    && (forall j :: 0 <= j < |qts| && qts[j] in s.completed && j !in taken ==>
          |taken| == cap && forall a :: 0 <= a < |taken| ==> taken[a] < j)
  }

  /**
   With good tokens the scan succeeds, takes the first completed ones, removes exactly
   their tasks, and leaves every other task and every dropped flag as it was.
   */
  lemma ScanTakesFirstCompleted(s: Sched, qts: seq<nat>, cap: nat)
    requires Inv(s) && Tokens(s, qts)
    ensures var r := ScanFrom(s, qts, cap, 0, []);
      && r.Scanned? && Inv(r.s)
      && FirstCompleted(s, qts, cap, r.taken)
      && Tasks(r.s) == Tasks(s) - Picked(qts, r.taken)
      && r.s.dropped == s.dropped
      && r.s.completed == s.completed - Picked(qts, r.taken)
      && r.s.legal == s.legal && r.s.spawned == s.spawned
  {
    StartReached(s, qts);
    var at := ScanStops(s, s, qts, cap, 0, []);
    var r := ScanFrom(s, qts, cap, 0, []);
    hide Inv;
    if r.BadToken? {
      NotPicked(qts, r.taken, at);
    }
  }

  /** A token is picked only at its own index. */
  lemma NotPicked(qts: seq<nat>, taken: seq<nat>, at: nat)
    requires DistinctTokens(qts) && at < |qts|
    requires forall a :: 0 <= a < |taken| ==> taken[a] != at
    ensures qts[at] !in Picked(qts, taken)
  {
  }

  // -------------------------------------------------------------------------------------
  // The error path
  // -------------------------------------------------------------------------------------

  /** How many of the first `n` tokens name completed tasks. */
  ghost function CompletedBefore(s: Sched, qts: seq<nat>, n: nat): (c: nat)
    requires n <= |qts|
  {
    if n == 0 then 0 else CompletedBefore(s, qts, n - 1) + if qts[n - 1] in s.completed then 1 else 0
  }

  lemma {:induction false} MoreCompleted(s: Sched, qts: seq<nat>, m: nat, n: nat)
    requires m <= n <= |qts|
    ensures CompletedBefore(s, qts, m) <= CompletedBefore(s, qts, n)
    decreases n - m
  {
    if m < n {
      MoreCompleted(s, qts, m, n - 1);
    }
  }

  /** The indices below `n` of completed tokens. */
  ghost predicate Exactly(s: Sched, qts: seq<nat>, n: nat, taken: seq<nat>) {
    Increasing(taken) && forall j :: j in taken <==> 0 <= j < n <= |qts| && qts[j] in s.completed
  }

  lemma HasMember(xs: seq<nat>)
    ensures xs != [] ==> exists j :: j in xs
  {
    if xs != [] {
      assert xs[0] in xs;
    }
  }

  lemma {:induction false} CountTaken(s: Sched, qts: seq<nat>, n: nat, taken: seq<nat>)
    requires n <= |qts| && Exactly(s, qts, n, taken)
    ensures |taken| == CompletedBefore(s, qts, n)
    decreases n
  {
    HasMember(taken);
    if n > 0 && qts[n - 1] in s.completed {
      var m := |taken| - 1;
      assert n - 1 in taken;
      assert taken[m] in taken;
      var init := taken[..m];
      forall j
        ensures j in init <==> 0 <= j < n - 1 && qts[j] in s.completed
      {
        if j in taken && j != n - 1 {
          var a :| 0 <= a < |taken| && taken[a] == j;
          assert a != m;
          assert init[a] == j;
        }
        if j in init {
          assert j in taken;
        }
      }
      CountTaken(s, qts, n - 1, init);
    } else if n > 0 {
      CountTaken(s, qts, n - 1, taken);
    }
  }

  /** The first token that stops the scan is a bad one, at `at`, with room left before it. */
  ghost predicate Fails(s: Sched, qts: seq<nat>, cap: nat, at: nat) {
    Bad(s, qts, at) && Clean(s, qts, at) && Room(s, qts, cap, at)
  }

  /** It is a completed background task's. */
  ghost predicate Panics(s: Sched, qts: seq<nat>, cap: nat, at: nat) {
    Wrong(s, qts, at) && Clean(s, qts, at) && Room(s, qts, cap, at)
  }

  /** What the scan took, at the point where it stopped. */
  lemma StoppedTook(s: Sched, r: Scan, qts: seq<nat>, cap: nat, at: nat)
    requires Stopped(s, r, qts, cap, at) && !r.Aborted?
    ensures Exactly(s, qts, at, r.taken) && |r.taken| == CompletedBefore(s, qts, at) && Clean(s, qts, at)
    ensures r.BadToken? ==> Fails(s, qts, cap, at)
  {
    CountTaken(s, qts, at, r.taken);
    if r.BadToken? {
      DeadIsBad(s, r.s, qts, at, r.taken);
    }
  }

  lemma StartReached(s: Sched, qts: seq<nat>)
    requires Inv(s)
    ensures Reached(s, s, qts, 0, [])
  {
    assert Picked(qts, []) == {};
  }

  /** The first of the tokens that stop the scan is either bad or wrong. */
  lemma BadOrWrong(s: Sched, qts: seq<nat>, at: nat)
    requires Clean(s, qts, at)
    ensures !(Bad(s, qts, at) && Wrong(s, qts, at))
  {
    if Bad(s, qts, at) && qts[at] in Tasks(s) {
      var j :| 0 <= j < at && qts[j] == qts[at];
      assert !Wrong(s, qts, j);
    }
  }

  /** A scan that comes to a token that stops it, with room left, stops there. */
  lemma StopsThere(s: Sched, r: Scan, qts: seq<nat>, cap: nat, at: nat, there: nat)
    requires Stopped(s, r, qts, cap, at)
    requires Clean(s, qts, there) && Room(s, qts, cap, there) && (Bad(s, qts, there) || Wrong(s, qts, there))
    ensures at == there && !r.Scanned? && (r.BadToken? <==> Bad(s, qts, there))
  {
    if !r.Aborted? {
      StoppedTook(s, r, qts, cap, at);
    }
    assert there < at ==> !Bad(s, qts, there) && !Wrong(s, qts, there);
    assert at < there ==> !Bad(s, qts, at) && !Wrong(s, qts, at);
    MoreCompleted(s, qts, at, there);
    BadOrWrong(s, qts, there);
  }

  /**
   EINVAL, exactly: some token is bad, no completed background task comes before the first bad one,
   and fewer completed tokens do than there is room for results.
   */
  lemma InvalidTokenIff(s: Sched, qts: seq<nat>, cap: nat)
    requires Inv(s)
    ensures ScanFrom(s, qts, cap, 0, []).BadToken? <==> exists at :: Fails(s, qts, cap, at)
    ensures ScanFrom(s, qts, cap, 0, []).Aborted? <==> exists at :: Panics(s, qts, cap, at)
  {
    StartReached(s, qts);
    var r := ScanFrom(s, qts, cap, 0, []);
    var at := ScanStops(s, s, qts, cap, 0, []);
    if !r.Aborted? {
      StoppedTook(s, r, qts, cap, at);
    }
    hide ScanFrom, Reached, Inv;
    forall there | Fails(s, qts, cap, there)
      ensures r.BadToken?
    {
      StopsThere(s, r, qts, cap, at, there);
    }
    forall there | Panics(s, qts, cap, there)
      ensures r.Aborted?
    {
      StopsThere(s, r, qts, cap, at, there);
      BadOrWrong(s, qts, there);
    }
  }

  /**
   What EINVAL costs: exactly the completed tokens before the first bad one have been taken out
   of the scheduler, and their results reach nobody. So something is lost if and only if a
   completed token comes before it. Nobody is marked dropped.
   */
  lemma InvalidTokenLosesResults(s: Sched, qts: seq<nat>, cap: nat, at: nat)
    requires Inv(s) && Fails(s, qts, cap, at)
    ensures var r := ScanFrom(s, qts, cap, 0, []);
      && r.BadToken? && Inv(r.s)
      && Exactly(s, qts, at, r.taken)
      && Tasks(r.s) == Tasks(s) - Picked(qts, r.taken)
      && r.s.dropped == s.dropped
      && (Tasks(r.s) != Tasks(s) <==> CompletedBefore(s, qts, at) > 0)
  {
    StartReached(s, qts);
    var r := ScanFrom(s, qts, cap, 0, []);
    var end := ScanStops(s, s, qts, cap, 0, []);
    StopsThere(s, r, qts, cap, end, at);
    StoppedTook(s, r, qts, cap, at);
    PickedLive(s, qts, at, r.taken);
  }

  lemma PickedLive(s: Sched, qts: seq<nat>, at: nat, taken: seq<nat>)
    requires Inv(s) && Exactly(s, qts, at, taken) && at <= |qts|
    ensures Picked(qts, taken) <= Tasks(s).Keys && (Picked(qts, taken) == {} <==> taken == [])
  {
    forall a | 0 <= a < |taken|
      ensures taken[a] < |qts| && qts[taken[a]] in Tasks(s)
    {
      assert taken[a] in taken;
    }
    if taken != [] {
      assert qts[taken[0]] in Picked(qts, taken);
    }
  }

  // -------------------------------------------------------------------------------------
  // A reachable state in which results are lost
  // -------------------------------------------------------------------------------------

  /** Futures that complete when they are first polled. */
  ghost predicate Immediate(env: Oracle) {
    forall n, id :: env(n, id) == Response([], true)
  }

  /** One operation is started and polled once. */
  ghost function OneOperation(env: Oracle): (s: Sched) {
    SchedulerCall.Run(env, [Act(Spawn(Operation)), PollOnce])
  }

  lemma OneOperationRuns(env: Oracle)
    ensures OneOperation(env) == Poll(SchedulerModel.Insert(INITIAL, Operation).s, env)
  {
    hide Poll, SchedulerModel.Insert;
    var acts := [Act(Spawn(Operation)), PollOnce];
    assert acts[..1] == [Act(Spawn(Operation))];
    assert acts[..1][..0] == [];
    assert SchedulerCall.Run(env, []) == INITIAL;
    assert SchedulerCall.Run(env, acts[..1]) == SchedulerModel.Insert(INITIAL, Operation).s;
  }

  /** A scheduler's first task, polled by a call in which its future completes at once. */
  lemma FirstTaskCompletes(s: Sched, env: Oracle, k: nat)
    requires Inv(s) && s.legal && Tasks(s) == map[k := Task(0, Operation, false)]
    requires s.notified == {k} && s.dropped == {} && s.completed == {} && Immediate(env)
    ensures var s' := Poll(s, env);
      s'.legal && Inv(s') && Tasks(s') == map[k := Task(0, Operation, true)] && s'.completed == {k}
  {
    assert env(s.polls, 0) == Response([], true);
    OnlyOnePolled(s, env, k, 0);
    BeginKeeps(s);
    TakePageKeeps(Begin(s), k / PAGE);
    var s1 := TakePage(Begin(s), k / PAGE);
    hide Inv, Poll;
    CompletesAtOnce(s1, env, k);
  }

  lemma CompletesAtOnce(s: Sched, env: Oracle, k: nat)
    requires Inv(s) && s.legal && Tasks(s) == map[k := Task(0, Operation, false)] && s.completed == {}
    requires Immediate(env)
    ensures var s' := PollTask(s, env, k);
      s'.legal && Inv(s') && Tasks(s') == map[k := Task(0, Operation, true)] && s'.completed == {k}
  {
    assert env(s.polls, 0) == Response([], true);
    GetIsLookup(s.slab, k);
    assert Ids(s) == {0};
    var s1 := Charge(s, 0);
    ChargeKeeps(s, 0);
    GetIsLookup(s1.slab, k);
    CompleteKeeps(s1, k);
    hide Inv, Grows;
    assert PollTask(s, env, k) == Complete(s1, k);
  }

  lemma OneOperationCompletes(env: Oracle)
    requires Immediate(env)
    ensures var s := OneOperation(env);
      && s.legal && Inv(s)
      && Tasks(s) == map[0 := Task(0, Operation, true)] && s.completed == {0}
  {
    OneOperationRuns(env);
    FirstInsert(INITIAL, Operation);
    hide SchedulerModel.Insert, Poll, Inv;
    var r := SchedulerModel.Insert(INITIAL, Operation);
    FirstTaskCompletes(r.s, env, 0);
  }

  /** A repeated token, and a dead one, after a completed one: both lose its result. */
  lemma ResultsAreLost(env: Oracle, dead: nat)
    requires Immediate(env) && dead != 0
    ensures var s := OneOperation(env);
      && (var r := ScanFrom(s, [0, 0], 2, 0, []); r.BadToken? && 0 in Tasks(s) && 0 !in Tasks(r.s))
      && (var r := ScanFrom(s, [0, dead], 2, 0, []); r.BadToken? && 0 in Tasks(s) && 0 !in Tasks(r.s))
  {
    var s := OneOperation(env);
    OneOperationCompletes(env);
    LostAfterFirst(s, [0, 0]);
    LostAfterFirst(s, [0, dead]);
  }

  lemma LostAfterFirst(s: Sched, qts: seq<nat>)
    requires Inv(s) && Tasks(s) == map[0 := Task(0, Operation, true)] && s.completed == {0}
    requires |qts| == 2 && qts[0] == 0
    ensures var r := ScanFrom(s, qts, 2, 0, []); r.BadToken? && 0 !in Tasks(r.s)
  {
    assert qts[0] == qts[1] || qts[1] !in Tasks(s);
    assert Bad(s, qts, 1) && !Bad(s, qts, 0) && !Wrong(s, qts, 0);
    assert CompletedBefore(s, qts, 0) == 0;
    InvalidTokenLosesResults(s, qts, 2, 1);
    var r := ScanFrom(s, qts, 2, 0, []);
    assert 0 in r.taken;
    var a :| 0 <= a < |r.taken| && r.taken[a] == 0;
    assert qts[r.taken[a]] in Picked(qts, r.taken);
  }

  // -------------------------------------------------------------------------------------
  // Background rounds keep the tokens
  // -------------------------------------------------------------------------------------

  /** `poll_bg_work`: what packets do, one scheduler poll, what the clock and migration do. */
  function Round(s: Sched, env: Oracle, before: seq<Effect>, after: seq<Effect>): (r: Sched)
    ensures r.legal ==> s.legal
  {
    PerformAll(Poll(PerformAll(s, before), env), after)
  }

  /** An operation leaves the scheduler only by being taken. */
  lemma OperationStays(s: Sched, env: Oracle, k: nat)
    requires Inv(s) && Poll(s, env).legal && k in Tasks(s) && Tasks(s)[k].kind.Operation?
    ensures SameTask(s, Poll(s, env), k)
  {
    var a, b := AtOwnPage(s, env, k);
    assert TaskOk(a, k);
  }

  lemma RoundKeepsTokens(s: Sched, env: Oracle, before: seq<Effect>, after: seq<Effect>, qts: seq<nat>)
    requires Inv(s) && Tokens(s, qts) && Round(s, env, before, after).legal
    ensures Inv(Round(s, env, before, after)) && Tokens(Round(s, env, before, after), qts)
  {
    var s1 := PerformAll(s, before);
    var s2 := Poll(s1, env);
    PerformAllKeeps(s, before);
    PollSafe(s1, env);
    PerformAllKeeps(s2, after);
    var s3 := PerformAll(s2, after);
    forall i | 0 <= i < |qts|
      ensures qts[i] in Tasks(s3) && Tasks(s3)[qts[i]].kind.Operation?
    {
      assert SameTask(s, s1, qts[i]);
      OperationStays(s1, env, qts[i]);
      assert SameTask(s2, s3, qts[i]);
    }
  }
}
