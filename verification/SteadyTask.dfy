/** A task whose future gives the same answer throughout one call of `Scheduler::poll`. */
module SteadyTask {
  import opened SchedulerModel
  import opened SchedulerPass
  import opened SchedulerPage
  import opened SchedulerCall

  /** Whenever the task is polled, it answers `v`. */
  ghost predicate Steady(env: Oracle, id: nat, v: bool) {
    forall n :: env(n, id).ready == v
  }

  /** While it is there, the task is done exactly if it has been polled and its answer is Ready. */
  ghost predicate Told(s: Sched, k: nat, id: nat, v: bool) {
    id < s.spawned && (k in Tasks(s) && Tasks(s)[k].id == id ==> (Tasks(s)[k].done <==> v && id in s.polled))
  }

  lemma BitTold(s: Sched, env: Oracle, p: nat, mask: set<nat>, i: nat, k: nat, id: nat, v: bool)
    requires i < PAGE && Inv(s) && Pollable(s, p, mask, i) && PollBit(s, env, p, mask, i).legal
    requires Told(s, k, id, v) && Steady(env, id, v)
    ensures Told(PollBit(s, env, p, mask, i), k, id, v)
  {
    var key := PAGE * p + i;
    if key in mask {
      assert Ahead(key, p, mask, i);
      PollTaskKeeps(s, env, key);
      if k in Tasks(s) && k != key {
        OtherId(s, k, key);
      }
    }
  }

  lemma {:induction false} BitsTold(s: Sched, env: Oracle, p: nat, mask: set<nat>, i: nat, k: nat, id: nat, v: bool)
    requires i <= PAGE && Inv(s) && Pollable(s, p, mask, i) && PollBits(s, env, p, mask, i).legal
    requires Told(s, k, id, v) && Steady(env, id, v)
    ensures Told(PollBits(s, env, p, mask, i), k, id, v)
    decreases PAGE - i
  {
    hide PollBit, Pollable, Steady, Told, Inv;
    if i < PAGE && !s.panicked {
      PollBitTurns(s, env, p, mask, i);
      BitTold(s, env, p, mask, i, k, id, v);
      BitsTold(PollBit(s, env, p, mask, i), env, p, mask, i + 1, k, id, v);
    }
  }

  lemma PageTold(s: Sched, env: Oracle, p: nat, k: nat, id: nat, v: bool)
    requires Inv(s) && Unpolled(s, p) && PollPage(s, env, p).legal
    requires Told(s, k, id, v) && Steady(env, id, v)
    ensures Told(PollPage(s, env, p), k, id, v)
  {
    var s1, mask := TakePage(s, p), Snapshot(s, p);
    TakePageKeeps(s, p);
    SnapshotPollable(s, p);
    var s2 := PollBits(s1, env, p, mask, 0);
    assert s2.legal;
    BitsTold(s1, env, p, mask, 0, k, id, v);
    PollBitsTurns(s1, env, p, mask, 0);
    DoomedLive(s, s2, p);
    ReapBitsLeaves(s2, p, InPage(s.dropped, p), 0);
  }

  lemma {:induction false} PagesTold(s: Sched, env: Oracle, p: nat, n: nat, k: nat, id: nat, v: bool)
    requires p <= n && Inv(s) && Unpolled(s, p) && PollPages(s, env, p, n).legal
    requires Told(s, k, id, v) && Steady(env, id, v)
    ensures Told(PollPages(s, env, p, n), k, id, v)
    decreases n - p
  {
    hide PollPage, Unpolled, Steady, Told, Inv;
    if p < n && !s.panicked {
      PageStep(s, env, p);
      PageTold(s, env, p, k, id, v);
      PagesTold(PollPage(s, env, p), env, p + 1, n, k, id, v);
    }
  }

  /** A task that is neither dropped nor cancelled completes in a call iff it is polled and ready. */
  lemma SteadyAnswer(s: Sched, env: Oracle, k: nat, v: bool)
    requires Inv(s) && Poll(s, env).legal && k in Tasks(s) && !Tasks(s)[k].done && k !in s.dropped
    requires Tasks(s)[k].id !in Poll(s, env).cancelled && Steady(env, Tasks(s)[k].id, v)
    ensures SameTask(s, Poll(s, env), k) && k !in Poll(s, env).dropped
    ensures Tasks(Poll(s, env))[k].done <==> v && Tasks(s)[k].id in Poll(s, env).polled
  {
    BeginKeeps(s);
    assert TaskOk(s, k);
    PagesTold(Begin(s), env, 0, s.pages, k, Tasks(s)[k].id, v);
    OthersStay(s, env, k);
  }
}
