/**
 `poll_bg_work` with the clock: a scheduler round and, on every 64th call, an advance of the
 timer. One task of the scheduler, the waiter, waits on one future of the timer; every other
 task is free to do what it likes, including to the timer, except to that future.
 */
module BgWorkModel {
  import opened Options
  import opened SchedulerModel
  import opened SchedulerCall
  import opened SteadyTask
  import opened WaitModel
  import T = TimerModel

  const TIMER_RESOLUTION: nat := 64

  datatype Stack = Stack(s: Sched, t: T.Timer, ts: nat)

  /** The waiting task and the future it waits on. */
  datatype Waiter = Waiter(key: nat, id: nat, future: nat)

  /**
   What the world contributes to one call: packets received, how futures respond, what they do
   to the timer before poll number `n`, later work of the call, and the instant the clock reads.
   */
  datatype Input = Input(received: seq<Effect>, env: Oracle, ops: nat -> seq<T.Op>, after: seq<Effect>, now: int)

  // -------------------------------------------------------------------------------------
  // The timer during a call
  // -------------------------------------------------------------------------------------

  function Apply(t: T.Timer, op: T.Op): (r: T.Timer) {
    T.Do(T.History(t, [], map[], map[], false), op).t
  }

  function ApplyAll(t: T.Timer, ops: seq<T.Op>): (r: T.Timer)
    decreases |ops|
  {
    if ops == [] then t else ApplyAll(Apply(t, ops[0]), ops[1..])
  }

  /** The timer just before poll number `n`, in a call that starts at poll number `from`. */
  function TimerAt(t: T.Timer, ops: nat -> seq<T.Op>, from: nat, n: nat): (r: T.Timer)
    decreases n
  {
    if n <= from then ApplyAll(t, ops(from)) else ApplyAll(TimerAt(t, ops, from, n - 1), ops(n))
  }

  /** An operation by somebody else: it neither names the future nor moves the clock. */
  predicate Foreign(op: T.Op, future: nat) {
    match op
    case OpWait(_) => true
    case OpWaitFor(_) => true
    case OpPoll(id, _) => id != future
    case OpDrop(id) => id != future
    case OpAdvance(_) => false
  }

  ghost predicate AllForeign(ops: nat -> seq<T.Op>, future: nat) {
    forall n: nat, i: nat :: i < |ops(n)| ==> Foreign(ops(n)[i], future)
  }

  /** The future and the clock are as they were. */
  ghost predicate Kept(t: T.Timer, t': T.Timer, future: nat)
    requires future in t.futures
  {
    T.Inv(t') && t'.now == t.now && future in t'.futures && t'.futures[future] == t.futures[future]
  }

  lemma ApplyInv(t: T.Timer, op: T.Op)
    requires T.Inv(t)
    ensures T.Inv(Apply(t, op))
  {
    match op
    case OpWait(expiry) => T.WaitKeeps(t, expiry);
    case OpWaitFor(timeout) => T.WaitKeeps(t, t.now + timeout);
    case OpPoll(id, waker) => if id in t.futures { T.PollKeeps(t, id, waker); }
    case OpDrop(id) => if id in t.futures { T.DropKeeps(t, id); }
    case OpAdvance(now) => if t.now <= now { T.AdvanceFires(t, now); }
  }

  lemma ApplyKeeps(t: T.Timer, op: T.Op, future: nat)
    requires T.Inv(t) && future in t.futures && Foreign(op, future)
    ensures Kept(t, Apply(t, op), future)
  {
    ApplyInv(t, op);
  }

  lemma {:induction false} ApplyAllKeeps(t: T.Timer, ops: seq<T.Op>, future: nat)
    requires T.Inv(t) && future in t.futures && forall i :: 0 <= i < |ops| ==> Foreign(ops[i], future)
    ensures Kept(t, ApplyAll(t, ops), future)
    decreases |ops|
  {
    if ops != [] {
      ApplyKeeps(t, ops[0], future);
      ApplyAllKeeps(Apply(t, ops[0]), ops[1..], future);
    }
  }

  lemma {:induction false} TimerAtKeeps(t: T.Timer, ops: nat -> seq<T.Op>, from: nat, n: nat, future: nat)
    requires T.Inv(t) && future in t.futures && AllForeign(ops, future)
    ensures Kept(t, TimerAt(t, ops, from, n), future)
    decreases n
  {
    if n <= from {
      ApplyAllKeeps(t, ops(from), future);
    } else {
      TimerAtKeeps(t, ops, from, n - 1, future);
      ApplyAllKeeps(TimerAt(t, ops, from, n - 1), ops(n), future);
    }
  }

  lemma PollOfRegistered(t: T.Timer, future: nat, key: nat)
    requires future in t.futures && !t.futures[future].taken
    requires t.futures[future].state.Registered? && t.futures[future].task == Some(key)
    ensures T.PollWait(t, future, key).t == t
  {
    assert t.futures[future := t.futures[future]] == t.futures;
  }

  lemma PollOfExpired(t: T.Timer, op: T.Op, future: nat, key: nat)
    requires T.Inv(t) && future in t.futures && Foreign(op, future)
    requires !t.futures[future].taken && t.futures[future].state.Expired?
    ensures future in Apply(t, op).futures
    ensures Apply(T.PollWait(t, future, key).t, op) == T.PollWait(Apply(t, op), future, key).t
  {
    ApplyKeeps(t, op, future);
    hide T.Inv;
    var w := t.futures[future].(taken := true);
    match op
    case OpWait(expiry) =>
      UpdatesCommute(t.futures, future, w, t.created, T.Wait(expiry, None, T.Unregistered, false));
    case OpWaitFor(timeout) =>
      UpdatesCommute(t.futures, future, w, t.created, T.Wait(t.now + timeout, None, T.Unregistered, false));
    case OpPoll(id, waker) =>
      if id in t.futures && !t.futures[id].taken {
        UpdatesCommute(t.futures, future, w, id, T.PollWait(t, id, waker).t.futures[id]);
      }
    case OpDrop(id) =>
      assert t.futures[future := w] - {id} == (t.futures - {id})[future := w];
  }

  lemma UpdatesCommute<V>(m: map<nat, V>, a: nat, x: V, b: nat, y: V)
    requires a != b
    ensures m[a := x][b := y] == m[b := y][a := x]
  {
  }

  /** The waiter's own poll commutes with what others do: it changes at most its own future. */
  lemma PollCommutes(t: T.Timer, op: T.Op, future: nat, key: nat)
    requires T.Inv(t) && future in t.futures && Foreign(op, future)
    requires !t.futures[future].taken && !t.futures[future].state.Unregistered?
    requires t.futures[future].state.Registered? ==> t.futures[future].task == Some(key)
    ensures future in Apply(t, op).futures
    ensures Apply(T.PollWait(t, future, key).t, op) == T.PollWait(Apply(t, op), future, key).t
  {
    if t.futures[future].state.Registered? {
      ApplyKeeps(t, op, future);
      hide T.Inv, Apply, T.PollWait;
      PollOfRegistered(t, future, key);
      PollOfRegistered(Apply(t, op), future, key);
    } else {
      PollOfExpired(t, op, future, key);
    }
  }

  /** The future is one the waiter has polled before and not been told is ready. */
  ghost predicate Pollable(t: T.Timer, future: nat, key: nat) {
    && T.Inv(t) && future in t.futures && !t.futures[future].taken && !t.futures[future].state.Unregistered?
    && (t.futures[future].state.Registered? ==> t.futures[future].task == Some(key))
  }

  ghost predicate ForeignList(ops: seq<T.Op>, future: nat) {
    forall i :: 0 <= i < |ops| ==> Foreign(ops[i], future)
  }

  /** It commutes with everything others do in a row. */
  lemma {:induction false} PollCommutesAll(t: T.Timer, ops: seq<T.Op>, future: nat, key: nat)
    requires Pollable(t, future, key) && ForeignList(ops, future)
    ensures Pollable(ApplyAll(t, ops), future, key)
    ensures ApplyAll(T.PollWait(t, future, key).t, ops) == T.PollWait(ApplyAll(t, ops), future, key).t
    decreases |ops|
  {
    if ops != [] {
      ApplyKeeps(t, ops[0], future);
      PollCommutes(t, ops[0], future, key);
      hide T.Inv, T.PollWait, Apply, Foreign;
      PollCommutesAll(Apply(t, ops[0]), ops[1..], future, key);
    }
  }

  // -------------------------------------------------------------------------------------
  // One call
  // -------------------------------------------------------------------------------------

  /** The scheduler once packets have been received. */
  function Received(b: Stack, c: Input): (s: Sched) {
    PerformAll(b.s, c.received)
  }

  /** The scheduler after its own poll. */
  function PolledOnce(b: Stack, c: Input): (s: Sched) {
    Poll(Received(b, c), c.env)
  }

  function TimerDuring(b: Stack, c: Input, n: nat): (t: T.Timer) {
    TimerAt(b.t, c.ops, Received(b, c).polls, n)
  }

  /**
   The timer after the scheduler's poll. The waiter's own poll comes last here, wherever it came
   in the call: see `AnyPosition`.
   */
  function TimerAfter(b: Stack, c: Input, w: Waiter): (t: T.Timer) {
    var t := TimerDuring(b, c, PolledOnce(b, c).polls);
    if w.id in PolledOnce(b, c).polled && w.future in t.futures
    then T.PollWait(t, w.future, w.key).t else t
  }

  function Wakes(keys: seq<nat>): (es: seq<Effect>)
    ensures |es| == |keys| && forall i :: 0 <= i < |keys| ==> es[i] == Effect.Wake(keys[i])
  {
    seq(|keys|, i requires 0 <= i < |keys| => Effect.Wake(keys[i]))
  }

  /** The end of a call: on every 64th the clock moves, and the tasks of due futures are woken. */
  function Ticked(b: Stack, now: int): (r: Stack)
    ensures r.s.legal ==> b.s.legal
  {
    var ts := (b.ts + 1) % TIMER_RESOLUTION;
    if b.ts == 0 then
      var d := T.Advance(b.t, now);
      Stack(PerformAll(b.s, Wakes(d.woken)), d.t, ts)
    else b.(ts := ts)
  }

  /** `poll_bg_work`. */
  function Call(b: Stack, c: Input, w: Waiter): (r: Stack)
    ensures r.s.legal ==> Round(b.s, c.env, c.received, c.after).legal
  {
    Ticked(Stack(Round(b.s, c.env, c.received, c.after), TimerAfter(b, c, w), b.ts), c.now)
  }

  // -------------------------------------------------------------------------------------
  // The operations of a call in one list
  // -------------------------------------------------------------------------------------

  /** Everything others do to the timer from poll number `from` to poll number `n`. */
  function OpsUpTo(ops: nat -> seq<T.Op>, from: nat, n: nat): (r: seq<T.Op>)
    decreases n
  {
    if n <= from then ops(from) else OpsUpTo(ops, from, n - 1) + ops(n)
  }

  /** With the waiter's own poll, if there was one. */
  function CallOps(ops: nat -> seq<T.Op>, from: nat, n: nat, w: Waiter, polled: bool): (r: seq<T.Op>) {
    OpsUpTo(ops, from, n) + if polled then [T.OpPoll(w.future, w.key)] else []
  }

  lemma {:induction false} ApplyAppend(t: T.Timer, a: seq<T.Op>, b: seq<T.Op>)
    ensures ApplyAll(t, a + b) == ApplyAll(ApplyAll(t, a), b)
    decreases |a|
  {
    if a == [] {
      assert a + b == b;
    } else {
      assert (a + b)[0] == a[0] && (a + b)[1..] == a[1..] + b;
      ApplyAppend(Apply(t, a[0]), a[1..], b);
    }
  }

  lemma {:induction false} OpsUpToApply(t: T.Timer, ops: nat -> seq<T.Op>, from: nat, n: nat)
    ensures ApplyAll(t, OpsUpTo(ops, from, n)) == TimerAt(t, ops, from, n)
    decreases n
  {
    if n > from {
      OpsUpToApply(t, ops, from, n - 1);
      ApplyAppend(t, OpsUpTo(ops, from, n - 1), ops(n));
    }
  }

  lemma OwnPollApply(t: T.Timer, future: nat, key: nat)
    ensures ApplyAll(t, [T.OpPoll(future, key)]) == if future in t.futures then T.PollWait(t, future, key).t else t
  {
    assert [T.OpPoll(future, key)][1..] == [];
    assert ApplyAll(Apply(t, T.OpPoll(future, key)), []) == Apply(t, T.OpPoll(future, key));
  }

  /** Applied in a row they give the timer after the scheduler's poll. */
  lemma CallOpsApply(b: Stack, c: Input, w: Waiter)
    ensures var from, n := Received(b, c).polls, PolledOnce(b, c).polls;
      ApplyAll(b.t, CallOps(c.ops, from, n, w, w.id in PolledOnce(b, c).polled)) == TimerAfter(b, c, w)
  {
    hide Received, PolledOnce;
    var from, n := Received(b, c).polls, PolledOnce(b, c).polls;
    OpsUpToApply(b.t, c.ops, from, n);
    var own := if w.id in PolledOnce(b, c).polled then [T.OpPoll(w.future, w.key)] else [];
    ApplyAppend(b.t, OpsUpTo(c.ops, from, n), own);
    OwnPollApply(TimerDuring(b, c, n), w.future, w.key);
  }

  lemma {:induction false} OpsForeign(ops: nat -> seq<T.Op>, from: nat, n: nat, future: nat)
    requires AllForeign(ops, future)
    ensures ForeignList(OpsUpTo(ops, from, n), future)
    decreases n
  {
    var m := if n <= from then from else n;
    forall i: nat | i < |ops(m)|
      ensures Foreign(ops(m)[i], future)
    {
    }
    if n > from {
      OpsForeign(ops, from, n - 1, future);
    }
  }

  /**
   Wherever the waiter's poll comes among what others do in a call, the timer ends up as
   `TimerAfter` says.
   */
  lemma AnyPosition(b: Stack, c: Input, w: Waiter, before: seq<T.Op>, after: seq<T.Op>)
    requires Waits(b, w) && AllForeign(c.ops, w.future) && w.id in PolledOnce(b, c).polled
    requires before + after == OpsUpTo(c.ops, Received(b, c).polls, PolledOnce(b, c).polls)
    ensures ApplyAll(b.t, before + [T.OpPoll(w.future, w.key)] + after) == TimerAfter(b, c, w)
  {
    var own := [T.OpPoll(w.future, w.key)];
    var from, n := Received(b, c).polls, PolledOnce(b, c).polls;
    OpsForeign(c.ops, from, n, w.future);
    PrefixForeign(before, after, w.future);
    OpsUpToApply(b.t, c.ops, from, n);
    assert Pollable(b.t, w.future, w.key);
    hide Received, PolledOnce, OpsUpTo, Waits, T.Inv, T.PollWait, Foreign, AllForeign, Apply;
    PollCommutesAll(b.t, before, w.future, w.key);
    var t := ApplyAll(b.t, before);
    PollCommutesAll(t, after, w.future, w.key);
    OwnPollApply(t, w.future, w.key);
    ApplyAppend(b.t, before, after);
    ApplyAppend(b.t, before, own);
    ApplyAppend(b.t, before + own, after);
  }

  lemma PrefixForeign(before: seq<T.Op>, after: seq<T.Op>, future: nat)
    requires ForeignList(before + after, future)
    ensures ForeignList(before, future) && ForeignList(after, future)
  {
    var all := before + after;
    assert forall i :: 0 <= i < |before| ==> all[i] == before[i];
    forall i | 0 <= i < |after|
      ensures Foreign(after[i], future)
    {
      assert all[|before| + i] == after[i];
    }
  }

  /** None of them moves the clock. */
  ghost predicate NoAdvance(ops: seq<T.Op>) {
    forall i :: 0 <= i < |ops| ==> !ops[i].OpAdvance?
  }

  lemma {:induction false} CallOpsNoAdvance(ops: nat -> seq<T.Op>, from: nat, n: nat, w: Waiter, polled: bool)
    requires AllForeign(ops, w.future)
    ensures NoAdvance(CallOps(ops, from, n, w, polled)) && NoAdvance(OpsUpTo(ops, from, n))
    decreases n
  {
    var m := if n <= from then from else n;
    forall i: nat | i < |ops(m)|
      ensures !ops(m)[i].OpAdvance?
    {
      assert Foreign(ops(m)[i], w.future);
    }
    if n > from {
      CallOpsNoAdvance(ops, from, n - 1, w, polled);
    }
  }

  lemma {:induction false} NowStays(t: T.Timer, ops: seq<T.Op>)
    requires NoAdvance(ops)
    ensures ApplyAll(t, ops).now == t.now
    decreases |ops|
  {
    if ops != [] {
      assert Apply(t, ops[0]).now == t.now;
      NowStays(Apply(t, ops[0]), ops[1..]);
    }
  }

  // -------------------------------------------------------------------------------------
  // The waiter's assumptions
  // -------------------------------------------------------------------------------------

  /** What the waiter's future does when it is polled is what the timer says at that moment. */
  ghost predicate Answers(b: Stack, c: Input, w: Waiter) {
    forall n :: w.future in TimerDuring(b, c, n).futures ==>
      c.env(n, w.id).ready == T.PollWait(TimerDuring(b, c, n), w.future, w.key).answer.Ready?
  }

  ghost predicate Alive(s: Sched, w: Waiter) {
    w.key in Tasks(s) && Tasks(s)[w.key].id == w.id
  }

  ghost predicate Done(b: Stack, w: Waiter) {
    Alive(b.s, w) && Tasks(b.s)[w.key].done
  }

  /** The waiter has registered with the timer, or its future has expired and nobody took it yet. */
  ghost predicate Waits(b: Stack, w: Waiter) {
    && Inv(b.s) && T.Inv(b.t) && b.ts < TIMER_RESOLUTION
    && Alive(b.s, w) && !Tasks(b.s)[w.key].done && w.key !in b.s.dropped
    && w.future in b.t.futures && !b.t.futures[w.future].taken
    && !b.t.futures[w.future].state.Unregistered?
    && (b.t.futures[w.future].state.Registered? ==> b.t.futures[w.future].task == Some(w.key))
  }

  ghost predicate Registered(b: Stack, w: Waiter)
    requires Waits(b, w)
  {
    b.t.futures[w.future].state.Registered?
  }

  /**
   What a call is assumed to be like: wake-ups and cancellations name live tasks, nobody cancels
   the waiter or touches its future, its future answers truthfully, and time does not go back.
   */
  ghost predicate Undisturbed(b: Stack, c: Input, w: Waiter) {
    && Call(b, c, w).s.legal
    && w.key !in Received(b, c).dropped
    && w.id !in PolledOnce(b, c).cancelled
    && w.key !in Call(b, c, w).s.dropped
    && AllForeign(c.ops, w.future)
    && Answers(b, c, w)
    && b.t.now <= c.now
  }

  // -------------------------------------------------------------------------------------
  // One call and the waiter
  // -------------------------------------------------------------------------------------

  /** The clock stands still while futures run, so the waiter's answer is steady. */
  lemma AnswerIsSteady(b: Stack, c: Input, w: Waiter)
    requires Waits(b, w) && Undisturbed(b, c, w)
    ensures Steady(c.env, w.id, b.t.now >= b.t.futures[w.future].expiry)
  {
    forall n
      ensures c.env(n, w.id).ready == (b.t.now >= b.t.futures[w.future].expiry)
    {
      TimerAtKeeps(b.t, c.ops, Received(b, c).polls, n, w.future);
      T.PollKeeps(TimerDuring(b, c, n), w.future, w.key);
    }
  }

  lemma RoundLegal(b: Stack, c: Input, w: Waiter)
    requires Call(b, c, w).s.legal
    ensures Received(b, c).legal && PolledOnce(b, c).legal
  {
    assert Round(b.s, c.env, c.received, c.after).legal;
  }

  /** The scheduler's share of a call. */
  lemma RoundAnswers(b: Stack, c: Input, w: Waiter)
    requires Waits(b, w) && Undisturbed(b, c, w)
    ensures var s := Round(b.s, c.env, c.received, c.after);
      && Inv(s) && Alive(s, w)
      && (Tasks(s)[w.key].done <==>
            w.id in PolledOnce(b, c).polled && b.t.now >= b.t.futures[w.future].expiry)
    ensures w.key in b.s.notified ==> w.id in PolledOnce(b, c).polled
  {
    var s1, s2 := Received(b, c), PolledOnce(b, c);
    RoundLegal(b, c, w);
    PerformAllKeeps(b.s, c.received);
    assert SameTask(b.s, s1, w.key);
    AnswerIsSteady(b, c, w);
    SteadyAnswer(s1, c.env, w.key, b.t.now >= b.t.futures[w.future].expiry);
    PollSafe(s1, c.env);
    PerformAllKeeps(s2, c.after);
    assert SameTask(s2, PerformAll(s2, c.after), w.key);
    if w.key in b.s.notified {
      WokenIsPolled(s1, c.env, w.key);
    }
  }

  /** The timer's share, before the clock moves. */
  lemma TimerShare(b: Stack, c: Input, w: Waiter)
    requires Waits(b, w) && Undisturbed(b, c, w)
    ensures var t, f := TimerAfter(b, c, w), b.t.futures[w.future];
      && T.Inv(t) && t.now == b.t.now && w.future in t.futures
      && t.futures[w.future] == if w.id in PolledOnce(b, c).polled && t.now >= f.expiry then f.(taken := true) else f
  {
    var t := TimerDuring(b, c, PolledOnce(b, c).polls);
    TimerAtKeeps(b.t, c.ops, Received(b, c).polls, PolledOnce(b, c).polls, w.future);
    T.PollKeeps(t, w.future, w.key);
    assert T.Timely(t.futures[w.future], t.now, t.now);
  }

  /** A wake-up leaves its mark. */
  lemma {:induction false} WakesNotify(s: Sched, es: seq<Effect>, key: nat)
    requires Inv(s) && PerformAll(s, es).legal && Effect.Wake(key) in es
    ensures key in PerformAll(s, es).notified
    decreases |es|
  {
    var s' := Perform(s, es[0]);
    PerformKeeps(s, es[0]);
    PerformAllKeeps(s', es[1..]);
    if es[0] == Effect.Wake(key) {
      WakeKeeps(s, key);
      assert TaskOk(s, key);
    } else {
      WakesNotify(s', es[1..], key);
    }
  }

  /** What is true of the waiter after a call. */
  ghost predicate Stepped(b: Stack, c: Input, w: Waiter, b': Stack)
    requires Waits(b, w)
  {
    var f := b.t.futures[w.future];
    && (Done(b', w) <==> w.id in PolledOnce(b, c).polled && b.t.now >= f.expiry)
    && (w.key in b.s.notified ==> w.id in PolledOnce(b, c).polled)
    && (!Done(b', w) ==>
          && Waits(b', w)
          && b'.t.futures[w.future].expiry == f.expiry
          && b'.t.now == (if b.ts == 0 then c.now else b.t.now)
          && (f.state.Registered? && !(b.ts == 0 && c.now >= f.expiry) ==> b'.t.futures[w.future] == f)
          && (f.state.Registered? && b.ts == 0 && c.now >= f.expiry ==>
                b'.t.futures[w.future].state.Expired? && w.key in b'.s.notified))
  }

  lemma ClockStands(b: Stack, c: Input, w: Waiter)
    requires Waits(b, w) && Undisturbed(b, c, w) && b.ts != 0
    ensures Stepped(b, c, w, Call(b, c, w))
  {
    RoundAnswers(b, c, w);
    TimerShare(b, c, w);
  }

  lemma ClockMoves(b: Stack, c: Input, w: Waiter)
    requires Waits(b, w) && Undisturbed(b, c, w) && b.ts == 0
    ensures Stepped(b, c, w, Call(b, c, w))
  {
    RoundAnswers(b, c, w);
    TimerShare(b, c, w);
    var s, t := Round(b.s, c.env, c.received, c.after), TimerAfter(b, c, w);
    var d := T.Advance(t, c.now);
    T.AdvanceFires(t, c.now);
    PerformAllKeeps(s, Wakes(d.woken));
    assert SameTask(s, Call(b, c, w).s, w.key);
    var f := t.futures[w.future];
    if T.Due(f, c.now) {
      var i :| 0 <= i < |d.fired| && d.fired[i] == w.future;
      assert Wakes(d.woken)[i] == Effect.Wake(w.key);
      WakesNotify(s, Wakes(d.woken), w.key);
    }
  }

  lemma CallSteps(b: Stack, c: Input, w: Waiter)
    requires Waits(b, w) && Undisturbed(b, c, w)
    ensures Stepped(b, c, w, Call(b, c, w))
  {
    if b.ts == 0 {
      ClockMoves(b, c, w);
    } else {
      ClockStands(b, c, w);
    }
  }

  // -------------------------------------------------------------------------------------
  // Many calls
  // -------------------------------------------------------------------------------------

  /** The state after the first `n` calls. */
  function After(b: Stack, cs: seq<Input>, w: Waiter, n: nat): (r: Stack)
    requires n <= |cs|
    decreases n
  {
    if n == 0 then b else Call(After(b, cs, w, n - 1), cs[n - 1], w)
  }

  /** Calls go undisturbed for as long as the waiter waits. */
  ghost predicate Calm(b: Stack, cs: seq<Input>, w: Waiter) {
    forall i :: 0 <= i < |cs| && Waits(After(b, cs, w, i), w) ==> Undisturbed(After(b, cs, w, i), cs[i], w)
  }

  /** The number of further calls before one that moves the clock. */
  function CallsToClock(ts: nat): (n: nat)
    requires ts < TIMER_RESOLUTION
    ensures n < TIMER_RESOLUTION && (ts + n) % TIMER_RESOLUTION == 0
  {
    if ts == 0 then 0 else TIMER_RESOLUTION - ts
  }

  /** The waiter is registered, at this place in the cycle of calls. */
  ghost predicate Asleep(b: Stack, w: Waiter, f: T.Wait, ts: nat) {
    Waits(b, w) && !Done(b, w) && b.t.futures[w.future] == f && f.state.Registered? && b.ts == ts
  }

  /** Its future has fired and its task has been woken. */
  ghost predicate Ringing(b: Stack, w: Waiter) {
    && Waits(b, w) && !Done(b, w)
    && b.t.futures[w.future].expiry <= b.t.now
    && w.key in b.s.notified
  }

  lemma NotDoneAsleep(b: Stack, c: Input, w: Waiter, f: T.Wait, ts: nat)
    requires Asleep(b, w, f, ts) && Undisturbed(b, c, w)
    ensures !Done(Call(b, c, w), w) && Stepped(b, c, w, Call(b, c, w))
  {
    CallSteps(b, c, w);
    assert T.Timely(f, b.t.now, b.t.now);
  }

  lemma QuietCall(b: Stack, c: Input, w: Waiter, f: T.Wait, ts: nat)
    requires Asleep(b, w, f, ts) && ts != 0 && Undisturbed(b, c, w)
    ensures Asleep(Call(b, c, w), w, f, (ts + 1) % TIMER_RESOLUTION)
  {
    NotDoneAsleep(b, c, w, f, ts);
  }

  lemma FiringCall(b: Stack, c: Input, w: Waiter, f: T.Wait)
    requires Asleep(b, w, f, 0) && c.now >= f.expiry && Undisturbed(b, c, w)
    ensures Ringing(Call(b, c, w), w)
  {
    NotDoneAsleep(b, c, w, f, 0);
  }

  lemma FinalCall(b: Stack, c: Input, w: Waiter)
    requires Ringing(b, w) && Undisturbed(b, c, w)
    ensures Done(Call(b, c, w), w)
  {
    CallSteps(b, c, w);
  }

  lemma AsleepCalm(b: Stack, cs: seq<Input>, w: Waiter, f: T.Wait, ts: nat, n: nat)
    requires n < |cs| && Calm(b, cs, w) && Asleep(After(b, cs, w, n), w, f, ts)
    ensures Undisturbed(After(b, cs, w, n), cs[n], w)
  {
    hide Undisturbed;
  }

  /** Until the clock moves nothing happens to the waiter. */
  lemma {:induction false} StillAsleep(b: Stack, cs: seq<Input>, w: Waiter, f: T.Wait, n: nat)
    requires Asleep(b, w, f, b.ts) && Calm(b, cs, w)
    requires b.ts < TIMER_RESOLUTION && n <= |cs| && n <= CallsToClock(b.ts)
    ensures Asleep(After(b, cs, w, n), w, f, (b.ts + n) % TIMER_RESOLUTION)
    decreases n
  {
    hide Asleep, Waits, Undisturbed, Call, Calm;
    if n > 0 {
      StillAsleep(b, cs, w, f, n - 1);
      AsleepCalm(b, cs, w, f, b.ts + n - 1, n - 1);
      QuietCall(After(b, cs, w, n - 1), cs[n - 1], w, f, b.ts + n - 1);
    }
  }

  /**
   A waiter whose expiry real time has reached completes in exactly the call after the next one
   that moves the clock: at most 65 calls, counting the first of them, and never sooner.
   */
  lemma CompletesInTime(b: Stack, cs: seq<Input>, w: Waiter)
    requires Waits(b, w) && Registered(b, w) && Calm(b, cs, w)
    requires |cs| == CallsToClock(b.ts) + 2
    requires forall i :: 0 <= i < |cs| ==> cs[i].now >= b.t.futures[w.future].expiry
    ensures |cs| <= 65
    ensures Done(After(b, cs, w, |cs|), w)
    ensures forall i :: 0 <= i < |cs| ==> !Done(After(b, cs, w, i), w)
  {
    var f := b.t.futures[w.future];
    WaitsAsleep(b, w, f);
    hide Waits, Registered, Asleep, Done, Calm, After, Call;
    Completes(b, cs, w, f, CallsToClock(b.ts));
  }

  lemma Completes(b: Stack, cs: seq<Input>, w: Waiter, f: T.Wait, n: nat)
    requires Asleep(b, w, f, b.ts) && Calm(b, cs, w) && b.ts < TIMER_RESOLUTION
    requires n == CallsToClock(b.ts) && |cs| == n + 2
    requires forall i :: 0 <= i < |cs| ==> cs[i].now >= f.expiry
    ensures Done(After(b, cs, w, |cs|), w)
    ensures forall i :: 0 <= i < |cs| ==> !Done(After(b, cs, w, i), w)
  {
    hide Waits, Asleep, Done, Calm, After, Call;
    StillAsleep(b, cs, w, f, n);
    Rings(b, cs, w, f, n);
    forall i | 0 <= i < |cs|
      ensures !Done(After(b, cs, w, i), w)
    {
      if i <= n {
        NotYetDone(b, cs, w, f, i);
      }
    }
  }

  lemma WaitsAsleep(b: Stack, w: Waiter, f: T.Wait)
    requires Waits(b, w) && Registered(b, w) && f == b.t.futures[w.future]
    ensures Asleep(b, w, f, b.ts) && b.ts < TIMER_RESOLUTION
  {
  }

  lemma NotYetDone(b: Stack, cs: seq<Input>, w: Waiter, f: T.Wait, n: nat)
    requires Asleep(b, w, f, b.ts) && Calm(b, cs, w)
    requires b.ts < TIMER_RESOLUTION && n <= |cs| && n <= CallsToClock(b.ts)
    ensures !Done(After(b, cs, w, n), w)
  {
    hide Calm, Waits;
    StillAsleep(b, cs, w, f, n);
  }

  lemma Rings(b: Stack, cs: seq<Input>, w: Waiter, f: T.Wait, n: nat)
    requires n + 2 <= |cs| && Calm(b, cs, w) && Asleep(After(b, cs, w, n), w, f, 0) && cs[n].now >= f.expiry
    ensures !Done(After(b, cs, w, n + 1), w) && Done(After(b, cs, w, n + 2), w)
  {
    hide Stepped, Undisturbed, Call, Registered;
    FiringCall(After(b, cs, w, n), cs[n], w, f);
    FinalCall(After(b, cs, w, n + 1), cs[n + 1], w);
  }

  /** The bound is reached: just after a clock move it takes all 65 calls. */
  lemma LongestWait(ts: nat)
    requires ts < 64
    ensures CallsToClock(ts) + 2 <= 65 && (CallsToClock(ts) + 2 == 65 <==> ts == 1)
  {
  }

  lemma CallTicks(b: Stack, c: Input, w: Waiter)
    requires AllForeign(c.ops, w.future)
    ensures Call(b, c, w).ts == (b.ts + 1) % 64
    ensures Call(b, c, w).t.now == if b.ts == 0 then c.now else b.t.now
  {
    CallOpsApply(b, c, w);
    var from, n, polled := Received(b, c).polls, PolledOnce(b, c).polls, w.id in PolledOnce(b, c).polled;
    CallOpsNoAdvance(c.ops, from, n, w, polled);
    NowStays(b.t, CallOps(c.ops, from, n, w, polled));
    hide CallOps, TimerAfter, Round, PerformAll, T.Drain;
  }

  /**
   The cadence, over any run of calls whose futures leave the clock alone: the `n`-th call sets the
   clock to the time it reads if and only if `ts + n` is a multiple of 64, and no other call moves it.
   */
  lemma {:induction false} Cadence(b: Stack, cs: seq<Input>, w: Waiter, n: nat)
    requires b.ts < 64 && n < |cs| && forall i :: 0 <= i <= n ==> AllForeign(cs[i].ops, w.future)
    ensures After(b, cs, w, n).ts == (b.ts + n) % 64
    ensures After(b, cs, w, n + 1).t.now ==
      if (b.ts + n) % 64 == 0 then cs[n].now else After(b, cs, w, n).t.now
    decreases n
  {
    hide Call, AllForeign;
    if n > 0 {
      Cadence(b, cs, w, n - 1);
      CallTicks(After(b, cs, w, n - 1), cs[n - 1], w);
    }
    CallTicks(After(b, cs, w, n), cs[n], w);
  }

  /** However the calls go, the waiter does not complete before its expiry. */
  lemma NeverEarly(b: Stack, cs: seq<Input>, w: Waiter, n: nat)
    requires Waits(b, w) && Calm(b, cs, w) && 0 < n <= |cs|
    requires Done(After(b, cs, w, n), w) && forall i :: 0 <= i < n ==> !Done(After(b, cs, w, i), w)
    ensures cs[n - 1].now >= b.t.futures[w.future].expiry
    ensures After(b, cs, w, n - 1).t.now >= b.t.futures[w.future].expiry
  {
    hide Undisturbed, Call, Done, Calm, After;
    var expiry := b.t.futures[w.future].expiry;
    assert WaitsFor(b, w, expiry);
    DoneInTime(b, cs, w, expiry, n);
  }

  lemma DoneInTime(b: Stack, cs: seq<Input>, w: Waiter, expiry: int, n: nat)
    requires WaitsFor(b, w, expiry) && Calm(b, cs, w) && 0 < n <= |cs|
    requires Done(After(b, cs, w, n), w) && forall i :: 0 <= i < n ==> !Done(After(b, cs, w, i), w)
    ensures cs[n - 1].now >= expiry
    ensures After(b, cs, w, n - 1).t.now >= expiry
  {
    hide Undisturbed, Call, Done, Waits;
    WaitsUntilDone(b, cs, w, expiry, n - 1);
    assert Done(After(b, cs, w, n), w);
    DoneLate(After(b, cs, w, n - 1), cs[n - 1], w);
  }

  lemma DoneLate(b: Stack, c: Input, w: Waiter)
    requires Waits(b, w) && Undisturbed(b, c, w) && Done(Call(b, c, w), w)
    ensures b.t.futures[w.future].expiry <= b.t.now <= c.now
  {
    CallSteps(b, c, w);
  }

  ghost predicate WaitsFor(b: Stack, w: Waiter, expiry: int) {
    Waits(b, w) && b.t.futures[w.future].expiry == expiry
  }

  lemma NotYet(b: Stack, c: Input, w: Waiter, expiry: int)
    requires WaitsFor(b, w, expiry) && Undisturbed(b, c, w) && !Done(Call(b, c, w), w)
    ensures WaitsFor(Call(b, c, w), w, expiry)
  {
    CallSteps(b, c, w);
  }

  lemma {:induction false} WaitsUntilDone(b: Stack, cs: seq<Input>, w: Waiter, expiry: int, n: nat)
    requires WaitsFor(b, w, expiry) && Calm(b, cs, w) && n <= |cs|
    requires forall i :: 0 <= i <= n ==> !Done(After(b, cs, w, i), w)
    ensures WaitsFor(After(b, cs, w, n), w, expiry)
    decreases n
  {
    hide Undisturbed, Call, Done, Waits;
    if n > 0 {
      WaitsUntilDone(b, cs, w, expiry, n - 1);
      assert !Done(After(b, cs, w, n), w);
      NotYet(After(b, cs, w, n - 1), cs[n - 1], w, expiry);
    }
  }
}
