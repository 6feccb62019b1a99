/** The timer as an object: the clock, the heap, and the futures whose nodes the heap links. */
module Timers {
  import opened Options
  import opened PairingHeap
  import opened TimerModel

  class TimerQueue {
    var now: int
    var heap: Nodes
    var futures: map<nat, Wait>
    var created: nat

    ghost function View(): (t: Timer)
      reads this
    {
      Timer(now, heap, futures, created)
    }

    ghost predicate Valid()
      reads this
    {
      Inv(View())
    }

    constructor (start: int)
      ensures Valid() && View() == New(start)
    {
      now, heap, futures, created := start, Nil, map[], 0;
    }

    /** `wait_until`. */
    method WaitUntil(expiry: int) returns (id: nat)
      requires Valid()
      modifies this
      ensures Valid() && id == old(created)
      ensures View() == TimerModel.WaitUntil(old(View()), expiry)
    {
      WaitKeeps(View(), expiry);
      id := created;
      futures := futures[id := Wait(expiry, None, Unregistered, false)];
      created := created + 1;
    }

    /** `wait`. */
    method WaitFor(timeout: nat) returns (id: nat)
      requires Valid()
      modifies this
      ensures Valid() && id == old(created)
      ensures View() == TimerModel.WaitFor(old(View()), timeout)
    {
      id := WaitUntil(now + timeout);
    }

    /** `WaitFuture::poll`, of a future that has not completed. */
    method Poll(id: nat, waker: nat) returns (ready: bool)
      requires Valid() && id in futures && !futures[id].taken
      modifies this
      ensures Valid() && View() == PollWait(old(View()), id, waker).t
      ensures ready <==> old(now) >= old(futures[id].expiry)
      ensures !ready ==> futures[id].task == Some(waker)
    {
      PollKeeps(View(), id, waker);
      var w := futures[id];
      match w.state {
        case Unregistered =>
          if now >= w.expiry {
            w := w.(state := Expired);
            ready := true;
          } else {
            w := w.(task := Some(waker), state := Registered);
            heap := Insert(heap, Entry(id, w.expiry));
            ready := false;
          }
        case Registered =>
          w := w.(task := Some(waker));
          ready := false;
        case Expired =>
          ready := true;
      }
      if ready {
        w := w.(taken := true);
      }
      futures := futures[id := w];
    }

    /** `WaitFuture::drop`. */
    method DropFuture(id: nat)
      requires Valid() && id in futures
      modifies this
      ensures Valid() && View() == DropWait(old(View()), id)
    {
      DropKeeps(View(), id);
      var w := futures[id];
      if !w.taken {
        if w.state.Registered? {
          heap := Remove(heap, id);
        }
      }
      futures := futures - {id};
    }

    /** `advance_clock`; time must not go backwards. The wakers it invokes are returned. */
    method AdvanceClock(instant: int) returns (woken: seq<nat>)
      requires Valid() && now <= instant
      modifies this
      ensures Valid() && View() == Advance(old(View()), instant).t
      ensures woken == Advance(old(View()), instant).woken
    {
      ghost var end := Drain(View(), instant);
      AdvanceFires(View(), instant);
      assert Sound(View(), instant);
      woken := [];
      hide Sound;
      while heap.Node? && heap.entry.expiry <= instant
        invariant Sound(View(), instant) && now == old(now)
        invariant Drain(View(), instant).t == end.t
        invariant woken + Drain(View(), instant).woken == end.woken
        decreases Size(heap)
      {
        var id := heap.entry.id;
        ghost var next := Expire(View(), id);
        DrainStep(View(), instant, id);
        var w := futures[id];
        futures := futures[id := w.(state := Expired, task := None)];
        Regroup(woken, ToSeq(w.task), Drain(next, instant).woken);
        woken := woken + ToSeq(w.task);
        heap := Remove(heap, id);
        assert View() == next;
      }
      now := instant;
    }
  }
}
