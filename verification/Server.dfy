/** The HTTP server's token vector, updated in place as results are handled. */
module Servers {
  import opened SchedulerModel
  import opened Schedulers
  import opened ServerModel

  class TokenServer {
    const sched: Scheduler
    var qts: seq<nat>
    var crashed: bool

    ghost predicate Valid()
      reads this, sched, sched.slab, sched.slab.slots, sched.pages
    {
      this !in sched.repr && sched.Valid()
    }

    ghost function View(): (v: Server)
      reads this, sched
    {
      Server(sched.model, qts, crashed)
    }

    constructor (sched: Scheduler)
      requires sched.Valid()
      ensures Valid() && this.sched == sched && View() == Server(sched.model, [], false)
    {
      this.sched := sched;
      qts, crashed := [], false;
    }

    /** One operation is scheduled and its token pushed. */
    method PushToken()
      requires Valid()
      modifies `qts, `crashed, sched.repr
      ensures Valid() && fresh(sched.repr - old(sched.repr))
      ensures View() == IssueOnce(old(View()))
    {
      hide Inv;
      var handle := sched.Insert(Operation);
      if handle.None? {
        crashed := true;
      } else {
        var key := sched.IntoToken(handle.value);
        qts := qts + [key];
      }
    }

    /** `n` operations are scheduled and their tokens pushed. */
    method IssueTokens(n: nat)
      requires Valid()
      modifies `qts, `crashed, sched.repr
      ensures Valid() && fresh(sched.repr - old(sched.repr))
      ensures View() == Issue(old(View()), n)
    {
      hide IssueOnce, Inv;
      ghost var end := Issue(View(), n);
      var left: nat := n;
      while left > 0 && !crashed
        invariant Valid() && fresh(sched.repr - old(sched.repr))
        invariant Issue(View(), left) == end
        decreases left
      {
        PushToken();
        left := left - 1;
      }
    }

    /** One result: `swap_remove` of its token, then the tokens it calls for. */
    method HandleResult(index: nat, a: Answer)
      requires Valid()
      modifies `qts, `crashed, sched.repr
      ensures Valid() && fresh(sched.repr - old(sched.repr))
      ensures View() == HandleOne(old(View()), index, a)
    {
      hide Inv, Issue;
      if crashed || index >= |qts| || a.Unexpected? {
        crashed := true;
        return;
      }
      var last := |qts| - 1;
      qts := qts[index := qts[last]];
      qts := qts[..last];
      IssueTokens(TokensIssued(a));
    }

    /** The results of one `wait_any2`, last index first. */
    method HandleResults(taken: seq<nat>, answers: seq<Answer>)
      requires Valid() && |taken| == |answers|
      modifies `qts, `crashed, sched.repr
      ensures Valid() && fresh(sched.repr - old(sched.repr))
      ensures View() == HandleAll(old(View()), taken, answers, |taken|)
    {
      hide HandleOne, Inv;
      ghost var end := HandleAll(View(), taken, answers, |taken|);
      var j: nat := |taken|;
      while j > 0 && !crashed
        invariant j <= |taken|
        invariant Valid() && fresh(sched.repr - old(sched.repr))
        invariant HandleAll(View(), taken, answers, j) == end
        decreases j
      {
        j := j - 1;
        HandleResult(taken[j], answers[j]);
      }
    }
  }
}
