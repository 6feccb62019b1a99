/** The watched value as an object. */
module WatchedValues {
  import opened Options
  import opened WatchedModel

  class WatchedValue<T> {
    var value: T
    var waiters: seq<nat>
    var futures: map<nat, Watch>
    var created: nat

    ghost function View(): (v: Watched<T>)
      reads this
    {
      Watched(value, waiters, futures, created)
    }

    ghost predicate Valid()
      reads this
    {
      Inv(View())
    }

    constructor (start: T)
      ensures Valid() && View() == New(start)
    {
      value, waiters, futures, created := start, [], map[], 0;
    }

    /** `get`. */
    method Get() returns (v: T)
      ensures v == View().value
    {
      v := value;
    }

    /** `watch`. */
    method NewWatch() returns (v: T, id: nat)
      requires Valid()
      modifies this
      ensures Valid() && View() == WatchedModel.NewWatch(old(View()))
      ensures v == value && id == old(created)
    {
      v, id := value, created;
      futures := futures[id := Watch(None, Unregistered)];
      created := created + 1;
    }

    method SetWithoutNotify(v: T)
      requires Valid()
      modifies this
      ensures Valid() && View() == WatchedModel.SetWithoutNotify(old(View()), v)
    {
      value := v;
    }

    /** `modify`: the wakers it invokes are returned. */
    method Modify(f: T -> T) returns (woken: seq<nat>)
      requires Valid()
      modifies this
      ensures Valid()
      ensures View() == WatchedModel.Modify(old(View()), f).v
      ensures woken == WatchedModel.Modify(old(View()), f).woken
    {
      ModifyCompletes(View(), f);
      ghost var end := Drain(futures, waiters);
      value := f(value);
      var current := waiters;
      waiters := [];
      woken := [];
      while current != []
        invariant Drain(futures, current).futures == end.futures
        invariant woken + Drain(futures, current).woken == end.woken
        invariant value == f(old(value)) && waiters == [] && created == old(created)
        invariant forall x :: x in current ==> x in old(waiters)
        invariant futures.Keys == old(futures).Keys
        decreases |current|
      {
        var id := current[|current| - 1];
        current := current[..|current| - 1];
        var w := futures[id];
        Regroup(woken, ToSeq(w.task), Drain(futures[id := Watch(None, Completed(false))], current).woken);
        woken := woken + ToSeq(w.task);
        futures := futures[id := Watch(None, Completed(false))];
      }
    }

    /** `set`. */
    method Set(v: T) returns (woken: seq<nat>)
      requires Valid()
      modifies this
      ensures Valid() && value == v
      ensures View() == WatchedModel.Modify(old(View()), _ => v).v
      ensures woken == WatchedModel.Modify(old(View()), _ => v).woken
    {
      ModifyCompletes(View(), _ => v);
      woken := Modify(_ => v);
    }

    /** `WatchFuture::poll`. */
    method Poll(id: nat, waker: nat) returns (ready: bool)
      requires Valid() && id in futures
      modifies this
      ensures Valid() && View() == PollWatch(old(View()), id, waker).v
      ensures ready == PollWatch(old(View()), id, waker).ready
      ensures !ready ==> futures[id].task == Some(waker)
    {
      PollKeeps(View(), id, waker);
      var w := futures[id];
      match w.state {
        case Unregistered =>
          futures := futures[id := Watch(Some(waker), Registered)];
          waiters := [id] + waiters;
          ready := false;
        case Registered =>
          futures := futures[id := w.(task := Some(waker))];
          ready := false;
        case Completed(_) =>
          futures := futures[id := w.(state := Completed(true))];
          ready := true;
      }
    }

    /** `WatchFuture::drop`: the panic on a failed removal is never reached. */
    method DropFuture(id: nat)
      requires Valid() && id in futures
      modifies this
      ensures Valid() && DropWatch(old(View()), id) == Some(View())
    {
      DropKeeps(View(), id);
      if futures[id].state.Registered? {
        var removed := Remove(waiters, id);
        if removed.None? {
          assert false; // panic!
        }
        waiters := removed.value;
      }
      futures := futures - {id};
    }
  }
}
