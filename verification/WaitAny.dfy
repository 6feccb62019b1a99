/** `wait_any2` on the scheduler object, with its result arrays. */
module WaitAny {
  import opened KeySpace
  import opened SlabModel
  import opened SchedulerModel
  import opened Schedulers
  import opened WaitModel

  /** What the first `n` entries of the two result arrays hold. */
  ghost predicate Stored(s: Sched, qts: seq<usize>, qrs: seq<Task>, indices: seq<nat>, taken: seq<nat>) {
    && |taken| <= |qrs| && |taken| <= |indices|
    && indices[..|taken|] == taken
    && forall a :: 0 <= a < |taken| ==>
         taken[a] < |qts| && qts[taken[a]] in Tasks(s) && qrs[a] == Tasks(s)[qts[taken[a]]]
  }

  datatype Look = NoTask | Pending | Done(task: Task) | Panicked

  /**
   One token, and the life of its handle: there is none if the token names nobody; a completed
   task is taken out, which panics for a background task; for a pending one the key is taken back
   out of the handle. The destructor runs at the end, and cancels nobody.
   */
  method LookAt(sched: Scheduler, qt: usize) returns (r: Look)
    requires sched.Valid()
    modifies sched.repr
    ensures sched.Valid() && sched.repr == old(sched.repr)
    ensures r.NoTask? <==> qt !in Tasks(old(sched.model))
    ensures r.Pending? <==> qt in Tasks(old(sched.model)) && qt !in old(sched.model).completed
    ensures r.Panicked? ==> Tasks(old(sched.model))[qt].kind.Background?
    ensures r.Done? ==> sched.model == Take(old(sched.model), qt) && r.task == Tasks(old(sched.model))[qt]
    ensures r.Done? ==> r.task.kind.Operation?
    ensures r.NoTask? || r.Pending? ==> sched.model == old(sched.model)
  {
    var h := sched.FromRawHandle(qt);
    if h.None? {
      return NoTask;
    }
    var handle := h.value;
    assert TaskOk(sched.model, qt);
    hide Inv;
    var completed := handle.HasCompleted(sched);
    if completed {
      var t := sched.Take(handle);
      r := if t.None? || t.value.kind.Background? then Panicked else Done(t.value);
    } else {
      var _ := handle.TakeKey();
      sched.Destroy(handle);
      r := Pending;
    }
  }

  lemma PrefixTask(s0: Sched, s: Sched, qts: seq<usize>, i: nat, taken: seq<nat>)
    requires Reached(s0, s, qts, i, taken) && i < |qts| && qts[i] in Tasks(s)
    ensures qts[i] in Tasks(s0) && Tasks(s)[qts[i]] == Tasks(s0)[qts[i]]
    ensures qts[i] in s.completed <==> qts[i] in s0.completed
  {
  }

  /** Appending one result. */
  lemma StoredAppend(s: Sched, qts: seq<usize>, qrs: seq<Task>, indices: seq<nat>, qrs': seq<Task>, indices': seq<nat>,
                     taken: seq<nat>, i: nat)
    requires Stored(s, qts, qrs, indices, taken) && i < |qts| && qts[i] in Tasks(s)
    requires |taken| < |qrs| && |taken| < |indices|
    requires qrs' == qrs[|taken| := Tasks(s)[qts[i]]] && indices' == indices[|taken| := i]
    ensures Stored(s, qts, qrs', indices', taken + [i])
  {
    assert indices'[..|taken| + 1] == indices[..|taken|] + [i];
  }

  /** The two stores into the result arrays. */
  method StoreResult(qrs: array<Task>, indices: array<nat>, n: nat, t: Task, i: nat, ghost s: Sched, qts: seq<usize>,
                     ghost taken: seq<nat>)
    requires n == |taken| < qrs.Length && n < indices.Length
    requires Stored(s, qts, qrs[..], indices[..], taken)
    requires i < |qts| && qts[i] in Tasks(s) && t == Tasks(s)[qts[i]]
    modifies qrs, indices
    ensures Stored(s, qts, qrs[..], indices[..], taken + [i])
  {
    ghost var qrs0, indices0 := qrs[..], indices[..];
    qrs[n] := t;
    indices[n] := i;
    StoredAppend(s, qts, qrs0, indices0, qrs[..], indices[..], taken, i);
  }

  /** How a scan is going: on or through, stopped by a bad token, or in a panic. */
  datatype Course = Going | Failed | Crashed

  function CourseAfter(r: Look): (c: Course) {
    match r
    case NoTask => Failed
    case Panicked => Crashed
    case _ => Going
  }

  /** Where the scan stands, at index `i` or stopped there; `end` is its outcome. */
  ghost predicate Midway(s0: Sched, s: Sched, qts: seq<usize>, cap: nat, i: nat, taken: seq<nat>, c: Course,
                         end: Scan)
  {
    && i <= |qts| && |taken| <= cap && |taken| <= i
    && match c
       case Going => Reached(s0, s, qts, i, taken) && ScanFrom(s, qts, cap, i, taken) == end
       case Failed => end == BadToken(s, taken)
       case Crashed => end.Aborted?
  }

  /** What a scan has come to. */
  ghost predicate Outcome(end: Scan, s: Sched, c: Course, taken: seq<nat>) {
    match c
    case Going => end == Scanned(s, taken)
    case Failed => end == BadToken(s, taken)
    case Crashed => end.Aborted?
  }

  lemma MidwayEnds(s0: Sched, s: Sched, qts: seq<usize>, cap: nat, i: nat, taken: seq<nat>, c: Course, end: Scan)
    requires Midway(s0, s, qts, cap, i, taken, c, end) && (!c.Going? || i == |qts| || |taken| == cap)
    ensures Outcome(end, s, c, taken)
  {
  }

  /** The indices taken once the `i`-th token has been looked at. */
  ghost function Extended(taken: seq<nat>, i: nat, r: Look): (t: seq<nat>) {
    if r.Done? then taken + [i] else taken
  }

  function Following(i: nat, r: Look): (j: nat) {
    if r.Pending? || r.Done? then i + 1 else i
  }

  /** The next token is looked at. */
  method LookNext(sched: Scheduler, qts: seq<usize>, cap: nat, i: nat, ghost s0: Sched, ghost taken: seq<nat>,
                  ghost end: Scan)
    returns (r: Look)
    requires sched.Valid() && i < |qts| && |taken| < cap
    requires Midway(s0, sched.model, qts, cap, i, taken, Going, end)
    modifies sched.repr
    ensures sched.Valid() && sched.repr == old(sched.repr)
    ensures Midway(s0, sched.model, qts, cap, Following(i, r), Extended(taken, i, r), CourseAfter(r), end)
    ensures r.Done? ==> qts[i] in Tasks(s0) && r.task == Tasks(s0)[qts[i]]
  {
    ScanTurn(s0, sched.model, qts, cap, i, taken);
    if qts[i] in Tasks(sched.model) {
      PrefixTask(s0, sched.model, qts, i, taken);
    }
    hide Reached, ScanFrom, Inv, Take;
    r := LookAt(sched, qts[i]);
  }

  /** One turn of the scan loop, with room for one more result. */
  method ScanOne(sched: Scheduler, qts: seq<usize>, qrs: array<Task>, indices: array<nat>, i: nat, n: nat,
                 ghost s0: Sched, ghost taken: seq<nat>, ghost end: Scan)
    returns (r: Look, ghost taken': seq<nat>)
    requires sched.Valid()
    requires i < |qts| && n == |taken| < qrs.Length && n < indices.Length
    requires Midway(s0, sched.model, qts, qrs.Length, i, taken, Going, end)
    requires Stored(s0, qts, qrs[..], indices[..], taken)
    requires qrs !in sched.repr && indices !in sched.repr
    modifies sched.repr, qrs, indices
    ensures sched.Valid() && sched.repr == old(sched.repr)
    ensures |taken'| == if r.Done? then n + 1 else n
    ensures Stored(s0, qts, qrs[..], indices[..], taken')
    ensures Midway(s0, sched.model, qts, qrs.Length, Following(i, r), taken', CourseAfter(r), end)
  {
    hide Midway, Inv, Stored;
    r := LookNext(sched, qts, qrs.Length, i, s0, taken, end);
    taken' := Extended(taken, i, r);
    if r.Done? {
      StoreResult(qrs, indices, n, r.task, i, s0, qts, taken);
    }
  }

  /**
   The scan loop. It stops at the end, when the results are full, at a token that names no task,
   or in a panic on a background task; what it stored are the completed tokens before that.
   */
  method ScanTokens(sched: Scheduler, qts: seq<usize>, qrs: array<Task>, indices: array<nat>)
    returns (c: Course, completed: nat, ghost taken: seq<nat>)
    requires sched.Valid()
    requires qrs !in sched.repr && indices !in sched.repr
    requires indices.Length >= qrs.Length || indices.Length >= |qts|
    modifies sched.repr, qrs, indices
    ensures sched.Valid() && sched.repr == old(sched.repr)
    ensures Outcome(ScanFrom(old(sched.model), qts, qrs.Length, 0, []), sched.model, c, taken)
    ensures completed == |taken| && Stored(old(sched.model), qts, qrs[..], indices[..], taken)
  {
    ghost var s0 := sched.model;
    ghost var end := ScanFrom(s0, qts, qrs.Length, 0, []);
    StartReached(s0, qts);
    c, completed, taken := Going, 0, [];
    var i: nat := 0;
    while c.Going? && i < |qts| && completed < qrs.Length
      invariant sched.Valid() && sched.repr == old(sched.repr) && completed == |taken|
      invariant Midway(s0, sched.model, qts, qrs.Length, i, taken, c, end)
      invariant Stored(s0, qts, qrs[..], indices[..], taken)
      decreases c.Going?, |qts| - i
    {
      hide Inv, Reached, ScanFrom;
      var r;
      r, taken := ScanOne(sched, qts, qrs, indices, i, completed, s0, taken, end);
      completed := if r.Done? then completed + 1 else completed;
      c := CourseAfter(r);
      i := Following(i, r);
    }
    MidwayEnds(s0, sched.model, qts, qrs.Length, i, taken, c, end);
  }

  // -------------------------------------------------------------------------------------
  // The outer loop
  // -------------------------------------------------------------------------------------

  datatype World = World(before: seq<Effect>, after: seq<Effect>, elapsed: bool)

  /** The scheduler after `n` background rounds in which no result was taken. */
  function AfterRounds(s: Sched, env: Oracle, world: nat -> World, n: nat): (r: Sched)
    ensures r.legal ==> s.legal
    decreases n
  {
    if n == 0 then s
    else Round(AfterRounds(s, env, world, n - 1), env, world(n - 1).before, world(n - 1).after)
  }

  lemma {:induction false} EarlierRoundsLegal(s: Sched, env: Oracle, world: nat -> World, k: nat, n: nat)
    requires k <= n && AfterRounds(s, env, world, n).legal
    ensures AfterRounds(s, env, world, k).legal
    decreases n - k
  {
    hide Round;
    if k < n {
      EarlierRoundsLegal(s, env, world, k, n - 1);
    }
  }

  /** `poll_bg_work`, as far as the scheduler is concerned. */
  method BackgroundRound(sched: Scheduler, env: Oracle, w: World)
    requires sched.Valid() && Round(sched.model, env, w.before, w.after).legal
    modifies sched.repr
    ensures sched.Valid() && sched.Grown()
    ensures sched.model == Round(old(sched.model), env, w.before, w.after)
  {
    hide Inv, PerformAll, Poll;
    sched.PerformEffects(w.before);
    sched.Poll(env);
    sched.PerformEffects(w.after);
  }

  /** One turn of the outer loop: a background round and a scan. */
  method WaitRound(sched: Scheduler, env: Oracle, w: World, qts: seq<usize>, qrs: array<Task>, indices: array<nat>)
    returns (c: Course, n: nat, ghost taken: seq<nat>)
    requires sched.Valid() && Round(sched.model, env, w.before, w.after).legal
    requires qrs !in sched.repr && indices !in sched.repr
    requires indices.Length >= qrs.Length || indices.Length >= |qts|
    modifies sched.repr, qrs, indices
    ensures sched.Valid() && fresh(sched.repr - old(sched.repr)) && n == |taken|
    ensures var s := Round(old(sched.model), env, w.before, w.after);
      && Outcome(ScanFrom(s, qts, qrs.Length, 0, []), sched.model, c, taken)
      && Stored(s, qts, qrs[..], indices[..], taken)
      && (c.Going? && n == 0 ==> sched.model == s)
  {
    BackgroundRound(sched, env, w);
    ghost var s := sched.model;
    hide Inv, Stored;
    c, n, taken := ScanTokens(sched, qts, qrs, indices);
    if c.Going? && n == 0 {
      IdleScan(s, qts, qrs.Length, 0);
    }
  }

  datatype Waited = Results(n: nat) | Invalid | Panic | TimedOut | StillWaiting

  /** Nothing comes of round `j`: no token is taken or stops the scan, and the time is not up. */
  ghost predicate Uneventful(s0: Sched, env: Oracle, world: nat -> World, j: nat, qts: seq<usize>, cap: nat) {
    && ScanFrom(AfterRounds(s0, env, world, j), qts, cap, 0, []) == Scanned(AfterRounds(s0, env, world, j), [])
    && j > 0 && !world(j - 1).elapsed
  }

  /** What `wait_any2` has done after `k` rounds: what came of the last one, or nothing. */
  ghost predicate AfterWaiting(s0: Sched, s: Sched, env: Oracle, world: nat -> World, k: nat, r: Waited,
                               qts: seq<usize>, qrs: seq<Task>, indices: seq<nat>, taken: seq<nat>)
  {
    var before := AfterRounds(s0, env, world, k);
    var scan := ScanFrom(before, qts, |qrs|, 0, []);
    match r
    case Results(n) => n == |taken| > 0 && scan == Scanned(s, taken) && Stored(before, qts, qrs, indices, taken)
    case Invalid => scan == BadToken(s, taken)
    case Panic => scan.Aborted?
    case TimedOut => k > 0 && world(k - 1).elapsed && scan == Scanned(s, []) && s == before
    case StillWaiting => s == before && (k > 0 ==> Uneventful(s0, env, world, k, qts, |qrs|))
  }

  /** The next turn of the outer loop. */
  method WaitTurn(sched: Scheduler, env: Oracle, world: nat -> World, k: nat, ghost s0: Sched,
                  qts: seq<usize>, qrs: array<Task>, indices: array<nat>)
    returns (r: Waited, ghost taken: seq<nat>)
    requires sched.Valid() && qrs !in sched.repr && indices !in sched.repr
    requires sched.model == AfterRounds(s0, env, world, k)
    requires AfterRounds(s0, env, world, k + 1).legal
    requires indices.Length >= qrs.Length || indices.Length >= |qts|
    modifies sched.repr, qrs, indices
    ensures sched.Valid() && fresh(sched.repr - old(sched.repr))
    ensures AfterWaiting(s0, sched.model, env, world, k + 1, r, qts, qrs[..], indices[..], taken)
  {
    hide Inv, Stored, ScanFrom, Round;
    var c, n;
    c, n, taken := WaitRound(sched, env, world(k), qts, qrs, indices);
    r := match c
      case Failed => Invalid
      case Crashed => Panic
      case Going => if n > 0 then Results(n) else if world(k).elapsed then TimedOut else StillWaiting;
    assert n == 0 ==> taken == [];
  }

  /** The rounds before the `k`-th came to nothing. */
  ghost predicate Waiting(s0: Sched, env: Oracle, world: nat -> World, k: nat, qts: seq<usize>, cap: nat) {
    forall j :: 0 < j < k ==> Uneventful(s0, env, world, j, qts, cap)
  }

  lemma Stand(s0: Sched, s: Sched, env: Oracle, world: nat -> World, k: nat,
              qts: seq<usize>, qrs: seq<Task>, indices: seq<nat>, taken: seq<nat>)
    requires AfterWaiting(s0, s, env, world, k, StillWaiting, qts, qrs, indices, taken)
    requires Waiting(s0, env, world, k, qts, |qrs|)
    ensures s == AfterRounds(s0, env, world, k) && Waiting(s0, env, world, k + 1, qts, |qrs|)
  {
    hide Uneventful, AfterRounds;
  }

  /** The outer loop. */
  method WaitLoop(sched: Scheduler, env: Oracle, world: nat -> World, rounds: nat,
                  qts: seq<usize>, qrs: array<Task>, indices: array<nat>, ghost s0: Sched)
    returns (r: Waited, k: nat, ghost taken: seq<nat>)
    requires sched.Valid() && qrs !in sched.repr && indices !in sched.repr
    requires AfterWaiting(s0, sched.model, env, world, 0, StillWaiting, qts, qrs[..], indices[..], [])
    requires Waiting(s0, env, world, 0, qts, |qrs[..]|)
    requires AfterRounds(s0, env, world, rounds).legal
    requires indices.Length >= qrs.Length || indices.Length >= |qts|
    modifies sched.repr, qrs, indices
    ensures sched.Valid() && k <= rounds && (r.StillWaiting? ==> k == rounds) && (k == 0 ==> r.StillWaiting?)
    ensures AfterWaiting(s0, sched.model, env, world, k, r, qts, qrs[..], indices[..], taken)
    ensures Waiting(s0, env, world, k, qts, |qrs[..]|)
  {
    hide *;
    r, k, taken := StillWaiting, 0, [];
    while r.StillWaiting? && k < rounds
      invariant sched.Valid() && fresh(sched.repr - old(sched.repr)) && k <= rounds
      invariant k == 0 ==> r.StillWaiting?
      invariant AfterWaiting(s0, sched.model, env, world, k, r, qts, qrs[..], indices[..], taken)
      invariant Waiting(s0, env, world, k, qts, |qrs[..]|)
      decreases rounds - k
    {
      Stand(s0, sched.model, env, world, k, qts, qrs[..], indices[..], taken);
      EarlierRoundsLegal(s0, env, world, k + 1, rounds);
      r, taken := WaitTurn(sched, env, world, k, s0, qts, qrs, indices);
      k := k + 1;
    }
  }

  /**
   `wait_any2` on any tokens, for as many rounds as it is given: it returns in the first round of
   which something comes, and goes on exactly as long as nothing does. So the unbounded loop of the
   source ends in that round, or never if there is none. Until then nothing but the rounds has
   happened to the scheduler. `ScanTakesFirstCompleted` says what the results are for good tokens,
   `InvalidTokenIff` and `InvalidTokenLosesResults` when a token is bad and what that costs.
   */
  method WaitAny2(sched: Scheduler, env: Oracle, world: nat -> World, rounds: nat,
                  qts: seq<usize>, qrs: array<Task>, indices: array<nat>)
    returns (r: Waited, k: nat, ghost taken: seq<nat>)
    requires sched.Valid() && qrs !in sched.repr && indices !in sched.repr
    requires AfterRounds(sched.model, env, world, rounds).legal
    requires indices.Length >= qrs.Length || indices.Length >= |qts|
    modifies sched.repr, qrs, indices
    ensures sched.Valid() && k <= rounds && (r.StillWaiting? ==> k == rounds) && (k == 0 ==> r.StillWaiting?)
    ensures AfterWaiting(old(sched.model), sched.model, env, world, k, r, qts, qrs[..], indices[..], taken)
    ensures Waiting(old(sched.model), env, world, k, qts, qrs.Length)
  {
    hide Inv, ScanFrom, Uneventful;
    r, k, taken := WaitLoop(sched, env, world, rounds, qts, qrs, indices, sched.model);
  }

  /** What a scan has taken it keeps. */
  lemma {:induction false} TakenGrows(s: Sched, qts: seq<nat>, cap: nat, i: nat, taken: seq<nat>)
    requires i <= |qts| && ScanFrom(s, qts, cap, i, taken).Scanned?
    ensures |taken| <= |ScanFrom(s, qts, cap, i, taken).taken|
    decreases |qts| - i
  {
    hide Take, Get;
    if i < |qts| && |taken| != cap {
      if qts[i] in s.completed {
        TakenGrows(Take(s, qts[i]), qts, cap, i + 1, taken + [i]);
      } else {
        TakenGrows(s, qts, cap, i + 1, taken);
      }
    }
  }

  /** A scan that takes nothing changes nothing. */
  lemma {:induction false} IdleScan(s: Sched, qts: seq<nat>, cap: nat, i: nat)
    requires i <= |qts| && ScanFrom(s, qts, cap, i, []).Scanned? && ScanFrom(s, qts, cap, i, []).taken == []
    ensures ScanFrom(s, qts, cap, i, []).s == s
    decreases |qts| - i
  {
    hide Take, Get;
    if i < |qts| && cap > 0 {
      if qts[i] in s.completed {
        TakenGrows(Take(s, qts[i]), qts, cap, i + 1, [] + [i]);
      } else {
        IdleScan(s, qts, cap, i + 1);
      }
    }
  }

  /** Good tokens stay good. */
  lemma {:induction false} RoundsKeepTokens(s: Sched, env: Oracle, world: nat -> World, n: nat, qts: seq<usize>)
    requires Inv(s) && Tokens(s, qts) && AfterRounds(s, env, world, n).legal
    ensures Inv(AfterRounds(s, env, world, n)) && Tokens(AfterRounds(s, env, world, n), qts)
    decreases n
  {
    hide Inv, Tokens, Round;
    if n > 0 {
      RoundsKeepTokens(s, env, world, n - 1, qts);
      var w := world(n - 1);
      RoundKeepsTokens(AfterRounds(s, env, world, n - 1), env, w.before, w.after, qts);
    }
  }

  /**
   For pairwise distinct tokens of live operations a wait is never invalid, and what it returns
   are the first completed ones; exactly their tasks are gone and no dropped flag has changed.
   */
  lemma GoodTokensWait(s0: Sched, s: Sched, env: Oracle, world: nat -> World, k: nat, r: Waited,
                       qts: seq<usize>, qrs: seq<Task>, indices: seq<nat>, taken: seq<nat>)
    requires Inv(s0) && Tokens(s0, qts) && AfterRounds(s0, env, world, k).legal
    requires AfterWaiting(s0, s, env, world, k, r, qts, qrs, indices, taken)
    ensures !r.Invalid? && !r.Panic?
    ensures r.Results? ==>
      var before := AfterRounds(s0, env, world, k);
      && FirstCompleted(before, qts, |qrs|, taken)
      && Stored(before, qts, qrs, indices, taken)
      && Tasks(s) == Tasks(before) - Picked(qts, taken)
      && s.dropped == before.dropped
  {
    var before := AfterRounds(s0, env, world, k);
    RoundsKeepTokens(s0, env, world, k, qts);
    hide Inv, AfterRounds, Tokens, FirstCompleted, Stored, ScanFrom;
    ScanTakesFirstCompleted(before, qts, |qrs|);
  }
}
