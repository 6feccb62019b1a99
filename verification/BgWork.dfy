/** `poll_bg_work` over the scheduler and the timer as objects. */
module BgWork {
  import opened SchedulerModel
  import opened Schedulers
  import opened WaitModel
  import opened Timers
  import opened BgWorkModel

  class InetStack {
    const scheduler: Scheduler
    const clock: TimerQueue
    var tsIters: nat

    ghost predicate Valid()
      reads this, clock, scheduler, scheduler.slab, scheduler.slab.slots, scheduler.pages
    {
      && scheduler.Valid() && clock.Valid() && tsIters < TIMER_RESOLUTION
      && clock !in scheduler.repr && this !in scheduler.repr
    }

    ghost function View(): (b: Stack)
      reads this, clock, scheduler
    {
      Stack(scheduler.model, clock.View(), tsIters)
    }

    constructor (s: Scheduler, c: TimerQueue)
      requires s.Valid() && c.Valid() && c !in s.repr
      ensures Valid() && scheduler == s && clock == c && tsIters == 0
    {
      scheduler, clock, tsIters := s, c, 0;
    }

    /** What the futures that ran did to the timer. A future polled after completion would panic. */
    method RunTimerOps(ops: seq<T.Op>)
      requires clock.Valid() && NoAdvance(ops)
      modifies clock
      ensures clock.Valid() && clock.View() == ApplyAll(old(clock.View()), ops)
    {
      for i := 0 to |ops|
        invariant clock.Valid() && ApplyAll(clock.View(), ops[i..]) == ApplyAll(old(clock.View()), ops)
      {
        assert ops[i..][0] == ops[i] && ops[i..][1..] == ops[i + 1..];
        match ops[i] {
          case OpWait(expiry) => var _ := clock.WaitUntil(expiry);
          case OpWaitFor(timeout) => var _ := clock.WaitFor(timeout);
          case OpPoll(id, waker) =>
            if id in clock.futures && !clock.futures[id].taken {
              var _ := clock.Poll(id, waker);
            }
          case OpDrop(id) =>
            if id in clock.futures {
              clock.DropFuture(id);
            }
        }
      }
      assert ops[|ops|..] == [];
    }

    /** The clock moves on every 64th call, and the futures that are due wake their tasks. */
    method Tick(now: int)
      requires Valid() && clock.now <= now
      requires tsIters == 0 ==> PerformAll(scheduler.model, Wakes(T.Advance(clock.View(), now).woken)).legal
      modifies this, clock, scheduler.repr
      ensures Valid() && View() == Ticked(old(View()), now)
      ensures tsIters == (old(tsIters) + 1) % 64 && clock.now == if old(tsIters) == 0 then now else old(clock.now)
    {
      hide Inv, T.Inv, PerformAll;
      if tsIters == 0 {
        var woken := clock.AdvanceClock(now);
        scheduler.PerformEffects(Wakes(woken));
      }
      tsIters := (tsIters + 1) % TIMER_RESOLUTION;
    }

    /** The scheduler's share: the numbers of its polls tell what the futures did in between. */
    method RunScheduler(c: Input) returns (from: nat, to: nat, polled: set<nat>)
      requires Valid() && Round(scheduler.model, c.env, c.received, c.after).legal
      modifies scheduler.repr
      ensures Valid() && tsIters == old(tsIters) && scheduler.Grown() && clock.View() == old(clock.View())
      ensures scheduler.model == Round(old(scheduler.model), c.env, c.received, c.after)
      ensures from == Received(old(View()), c).polls && to == PolledOnce(old(View()), c).polls
      ensures polled == PolledOnce(old(View()), c).polled
    {
      hide Inv, T.Inv, PerformAll, Poll;
      scheduler.PerformEffects(c.received);
      from := scheduler.polls;
      scheduler.Poll(c.env);
      to, polled := scheduler.polls, scheduler.polled;
      scheduler.PerformEffects(c.after);
    }

    /** The scheduler's and the futures' share. */
    method RunRound(c: Input, w: Waiter)
      requires Valid() && Round(scheduler.model, c.env, c.received, c.after).legal
      requires AllForeign(c.ops, w.future)
      modifies clock, scheduler.repr
      ensures Valid() && tsIters == old(tsIters) && scheduler.Grown()
      ensures scheduler.model == Round(old(scheduler.model), c.env, c.received, c.after)
      ensures clock.View() == TimerAfter(old(View()), c, w) && clock.now == old(clock.now)
    {
      hide Inv, T.Inv, Round, Received, PolledOnce, TimerAfter, CallOps, AllForeign;
      CallOpsApply(View(), c, w);
      var from, to, polled := RunScheduler(c);
      var ops := CallOps(c.ops, from, to, w, w.id in polled);
      CallOpsNoAdvance(c.ops, from, to, w, w.id in polled);
      NowStays(clock.View(), ops);
      RunTimerOps(ops);
    }

    /**
     `poll_bg_work`. What its futures do to the timer is in `c.ops`, in the order of the polls; the
     waiter polls its own future if it is among those polled.
     */
    method PollBgWork(c: Input, w: Waiter)
      requires Valid() && Call(View(), c, w).s.legal && clock.now <= c.now
      requires AllForeign(c.ops, w.future)
      modifies this, clock, scheduler.repr
      ensures Valid() && View() == Call(old(View()), c, w)
    {
      hide Inv, T.Inv, TimerAfter, Round, PerformAll;
      RunRound(c, w);
      Tick(c.now);
    }
  }
}
