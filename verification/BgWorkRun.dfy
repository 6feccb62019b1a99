/** A waiter that comes to wait, and the calls in which it is told. */
module BgWorkRun {
  import opened Options
  import opened SlabModel
  import opened SchedulerModel
  import opened SchedulerCall
  import opened WaitModel
  import opened BgWorkModel

  /** Nothing but the waiter is there, and it has just been woken. */
  ghost predicate Sole(b: Stack, w: Waiter) {
    && Waits(b, w) && b.s.legal && b.s.notified == {w.key} && b.s.dropped == {}
    && b.t.futures.Keys == {w.future}
  }

  /** Any live, unfinished, undropped task comes to wait by polling any future that has not been polled yet. */
  lemma ComesToWait(s: Sched, t: T.Timer, ts: nat, key: nat, future: nat)
    requires Inv(s) && key in Tasks(s) && !Tasks(s)[key].done && key !in s.dropped && ts < 64
    requires T.Inv(t) && future in t.futures && t.now < t.futures[future].expiry
    requires t.futures[future].state.Unregistered?
    ensures var b, w := Stack(s, T.PollWait(t, future, key).t, ts), Waiter(key, Tasks(s)[key].id, future);
      Waits(b, w) && Registered(b, w) && b.t.futures[future].expiry == t.futures[future].expiry
  {
    assert T.Timely(t.futures[future], t.now, t.now);
    T.PollKeeps(t, future, key);
    hide Inv, T.Inv;
  }

  lemma FirstFuture(now: int, expiry: int) returns (t: T.Timer)
    requires now < expiry
    ensures T.Inv(t) && t.now == now && t.futures == map[0 := T.Wait(expiry, Some(0), T.Registered, false)]
  {
    T.NewKeeps(now);
    T.WaitKeeps(T.New(now), expiry);
    var t0 := T.WaitUntil(T.New(now), expiry);
    T.PollKeeps(t0, 0, 0);
    t := T.PollWait(t0, 0, 0).t;
  }

  /** Waiters exist: the first task of a scheduler, waiting for the first future of a timer. */
  lemma FirstWaiter(now: int, expiry: int) returns (b: Stack, w: Waiter)
    requires now < expiry
    ensures Sole(b, w) && Registered(b, w) && b.t.futures[w.future].expiry == expiry && b.ts == 0 && b.t.now == now
  {
    hide Inv, T.Inv, SchedulerModel.Insert;
    FirstInsert(INITIAL, Background);
    var s := SchedulerModel.Insert(INITIAL, Background).s;
    var t := FirstFuture(now, expiry);
    b, w := Stack(s, t, 0), Waiter(0, 0, 0);
  }

  /** A call in which nothing is received, and every future that is polled gives this answer. */
  function Still(ready: bool, now: int): (c: Input) {
    Input([], (n: nat, id: nat) => Response([], ready), (n: nat) => [], [], now)
  }

  lemma {:induction false} TimerStill(t: T.Timer, ready: bool, now: int, from: nat, n: nat)
    ensures TimerAt(t, Still(ready, now).ops, from, n) == t
    decreases n
  {
    if n > from {
      TimerStill(t, ready, now, from, n - 1);
    }
  }

  /** The scheduler's share of such a call: the waiter alone is polled. */
  lemma StillRound(b: Stack, w: Waiter, ready: bool, now: int)
    requires Sole(b, w)
    ensures var c := Still(ready, now);
      && Received(b, c) == b.s
      && PolledOnce(b, c) == Round(b.s, c.env, c.received, c.after)
      && PolledOnce(b, c).legal && PolledOnce(b, c).cancelled == {}
      && PolledOnce(b, c).notified == {} && PolledOnce(b, c).dropped == {}
  {
    var c := Still(ready, now);
    var s1 := TakePage(Begin(b.s), w.key / PAGE);
    assert Tasks(s1) == Tasks(b.s) && s1.notified == {};
    OnlyOnePolled(b.s, c.env, w.key, w.id);
    QuietTask(s1, c.env, w.key, w.id);
  }

  lemma StillAnswers(b: Stack, w: Waiter, now: int)
    requires Sole(b, w)
    ensures Answers(b, Still(b.t.now >= b.t.futures[w.future].expiry, now), w)
  {
    var ready := b.t.now >= b.t.futures[w.future].expiry;
    var c := Still(ready, now);
    T.PollKeeps(b.t, w.future, w.key);
    forall n
      ensures TimerDuring(b, c, n) == b.t
    {
      TimerStill(b.t, ready, now, Received(b, c).polls, n);
    }
  }

  /** A call without a clock move is undisturbed. */
  lemma StillCall(b: Stack, w: Waiter, now: int)
    requires Sole(b, w) && b.ts != 0 && b.t.now <= now
    ensures Undisturbed(b, Still(b.t.now >= b.t.futures[w.future].expiry, now), w)
  {
    StillRound(b, w, b.t.now >= b.t.futures[w.future].expiry, now);
    StillAnswers(b, w, now);
  }

  lemma FirstTwo(xs: seq<nat>)
    requires DistinctTokens(xs)
    ensures |xs| > 1 ==> xs[0] != xs[1]
  {
  }

  lemma RegisteredLater(b: Stack, w: Waiter)
    requires Waits(b, w) && Registered(b, w)
    ensures b.t.now < b.t.futures[w.future].expiry
  {
    assert T.Timely(b.t.futures[w.future], b.t.now, b.t.now);
  }

  /** A future that is alone on its timer is alone to fire. */
  lemma SoleFires(t: T.Timer, now: int, future: nat, key: nat)
    requires T.Inv(t) && t.now <= now && t.futures.Keys == {future}
    requires T.Due(t.futures[future], now) && t.futures[future].task == Some(key)
    ensures T.Advance(t, now).woken == [key] && T.Advance(t, now).t.futures.Keys == {future}
  {
    T.AdvanceFires(t, now);
    var d := T.Advance(t, now);
    hide T.Inv, T.Advance;
    assert forall i :: 0 <= i < |d.fired| ==> d.fired[i] in t.futures.Keys;
    assert future in d.fired;
    FirstTwo(d.fired);
  }

  /** The timer is as it was when the clock is about to move. */
  lemma StillTimer(b: Stack, w: Waiter, now: int)
    requires Sole(b, w) && Registered(b, w)
    ensures TimerAfter(b, Still(false, now), w) == b.t
  {
    var c := Still(false, now);
    TimerStill(b.t, false, now, Received(b, c).polls, PolledOnce(b, c).polls);
    PollOfRegistered(b.t, w.future, w.key);
    hide Received, PolledOnce, T.PollWait;
  }

  /** What a call comes to that fires the waiter's future. */
  lemma FiringIs(b: Stack, w: Waiter, now: int)
    requires Sole(b, w) && Registered(b, w) && b.ts == 0 && now >= b.t.futures[w.future].expiry
    ensures var b' := Call(b, Still(false, now), w);
      && b'.s.legal && b'.s.notified == {w.key} && b'.s.dropped == {} && b'.ts == 1
      && b'.t.futures.Keys == {w.future}
  {
    hide PolledOnce, Received, TimerAfter, Round, T.Advance, PerformAll, Inv, T.Inv;
    var c := Still(false, now);
    RegisteredLater(b, w);
    StillRound(b, w, false, now);
    StillTimer(b, w, now);
    SoleFires(b.t, now, w.future, w.key);
    WakeSole(b, w, PolledOnce(b, c), now);
    assert Call(b, c, w) == Ticked(Stack(PolledOnce(b, c), b.t, 0), now);
  }

  /** The call that fires the waiter's future is undisturbed, and the waiter is still alone after it. */
  lemma FiringStep(b: Stack, w: Waiter, now: int)
    requires Sole(b, w) && Registered(b, w) && b.ts == 0 && now >= b.t.futures[w.future].expiry
    ensures var c := Still(false, now);
      Undisturbed(b, c, w) && Sole(Call(b, c, w), w) && Call(b, c, w).ts == 1
  {
    var c := Still(false, now);
    RegisteredLater(b, w);
    StillRound(b, w, false, now);
    StillAnswers(b, w, now);
    FiringIs(b, w, now);
    assert AllForeign(c.ops, w.future);
    hide Call, PolledOnce, Received, Answers, AllForeign, T.Inv, Inv;
    assert Undisturbed(b, c, w);
    NotDoneAsleep(b, c, w, b.t.futures[w.future], 0);
  }

  /** The waiter is still there to be woken. */
  lemma WakeSole(b: Stack, w: Waiter, s: Sched, now: int)
    requires Sole(b, w) && s == PolledOnce(b, Still(false, now))
    requires s.legal && s.notified == {} && s.dropped == {} && s.cancelled == {}
    ensures var s' := PerformAll(s, Wakes([w.key]));
      s'.legal && s'.notified == {w.key} && s'.dropped == {}
  {
    var c := Still(false, now);
    assert Received(b, c) == b.s;
    hide Poll;
    PollSafe(b.s, c.env);
    OthersStay(b.s, c.env, w.key);
    hide Sole, PolledOnce, Still;
    GetIsLookup(s.slab, w.key);
    assert TaskOk(s, w.key);
    hide Inv, TaskOk, Good;
    assert Wakes([w.key]) == [Effect.Wake(w.key)];
    assert [Effect.Wake(w.key)][1..] == [];
    assert PerformAll(WakeUp(s, w.key), []) == WakeUp(s, w.key);
  }

  /** The assumptions of `CompletesInTime` can be met, for any expiry in the future. */
  lemma WaitsAndCompletes(now: int, expiry: int) returns (b: Stack, cs: seq<Input>, w: Waiter)
    requires now < expiry
    ensures Waits(b, w) && Registered(b, w) && Calm(b, cs, w) && |cs| == CallsToClock(b.ts) + 2
    ensures b.t.futures[w.future].expiry == expiry && forall i :: 0 <= i < |cs| ==> cs[i].now >= expiry
    ensures Done(After(b, cs, w, 2), w)
  {
    hide Call, Undisturbed, Inv, T.Inv;
    b, w := FirstWaiter(now, expiry);
    var c1, c2 := Still(false, expiry), Still(true, expiry);
    cs := [c1, c2];
    FiringStep(b, w, expiry);
    var b1 := Call(b, c1, w);
    CallSteps(b, c1, w);
    RegisteredLater(b, w);
    StillCall(b1, w, expiry);
    assert After(b, cs, w, 0) == b && After(b, cs, w, 1) == b1;
    assert Calm(b, cs, w);
    CompletesInTime(b, cs, w);
  }
}
