/** One page of `Scheduler::poll`: its snapshot is polled, its dropped tasks are reaped. */
module SchedulerPage {
  import opened SchedulerModel
  import opened SchedulerPass

  lemma TakePageKeeps(s: Sched, p: nat)
    requires Inv(s)
    ensures Inv(TakePage(s, p))
  {
    forall k | k in Tasks(s)
      ensures TaskOk(TakePage(s, p), k)
    {
      assert TaskOk(s, k);
    }
  }

  lemma SnapshotPollable(s: Sched, p: nat)
    requires Inv(s) && Unpolled(s, p)
    ensures Pollable(TakePage(s, p), p, Snapshot(s, p), 0)
  {
    forall k | k in Snapshot(s, p)
      ensures k in Tasks(s) && PAGE * p <= k < PAGE * p + PAGE
      ensures !Tasks(s)[k].done && Tasks(s)[k].id !in s.polled
    {
      assert TaskOk(s, k);
    }
  }

  /** The two halves of a page: `s2` after its snapshot was polled, `s3` after the reaping. */
  ghost predicate PageRun(s: Sched, s2: Sched, s3: Sched, p: nat) {
    && Inv(s) && Inv(s2)
    && Unpolled(s, p)
    && Turned(TakePage(s, p), s2, Snapshot(s, p))
    && (forall k :: k in Snapshot(s, p) && k in Tasks(s) ==> Tasks(s)[k].id in s2.polled)
    && Left(s2, s3, Doomed(s, p))
  }

  lemma PageRuns(s: Sched, env: Oracle, p: nat) returns (s2: Sched)
    requires Inv(s) && Unpolled(s, p) && PollPage(s, env, p).legal
    ensures PageRun(s, s2, PollPage(s, env, p), p)
    ensures Inv(PollPage(s, env, p))
  {
    var s1, mask := TakePage(s, p), Snapshot(s, p);
    TakePageKeeps(s, p);
    SnapshotPollable(s, p);
    s2 := PollBits(s1, env, p, mask, 0);
    assert s2.legal;
    PollBitsTurns(s1, env, p, mask, 0);
    forall k | k in mask && k in Tasks(s)
      ensures Tasks(s)[k].id in s2.polled
    {
      assert Ahead(k, p, mask, 0);
    }
    DoomedLive(s, s2, p);
    ReapBitsLeaves(s2, p, InPage(s.dropped, p), 0);
    LeftInv(s2, PollPage(s, env, p), Doomed(s, p));
  }

  lemma DoomedLive(s: Sched, s2: Sched, p: nat)
    requires Inv(s) && Grows(TakePage(s, p), s2)
    ensures Doomed(s, p) <= Tasks(s2).Keys
    ensures Doomed(s, p) <= Tasks(s).Keys
  {
    forall k | k in Doomed(s, p)
      ensures k in Tasks(s2)
    {
      assert SameTask(TakePage(s, p), s2, k);
    }
  }

  lemma PageOthers(s: Sched, s2: Sched, s3: Sched, p: nat)
    requires PageRun(s, s2, s3, p)
    ensures OthersKept(s, s3, p)
  {
    forall k | k in Tasks(s) && k / PAGE != p
      ensures SameTask(s, s3, k)
      ensures Tasks(s3)[k].done == Tasks(s)[k].done
      ensures k in s.notified ==> k in s3.notified
      ensures k in s.dropped ==> k in s3.dropped
      ensures Tasks(s)[k].id in s3.polled ==> Tasks(s)[k].id in s.polled
    {
      assert k !in Snapshot(s, p) && k !in Doomed(s, p);
      assert SameTask(TakePage(s, p), s2, k);
    }
  }

  lemma PageOwn(s: Sched, s2: Sched, s3: Sched, p: nat)
    requires PageRun(s, s2, s3, p)
    ensures OwnHandled(s, s3, p)
  {
    forall k | k in Tasks(s) && k / PAGE == p
      ensures if k in s.dropped && k % PAGE != 0
        then k !in Tasks(s3) && Tasks(s)[k].id in s3.reaped
        else SameTask(s, s3, k)
      ensures Tasks(s)[k].id in s3.polled <==>
        Tasks(s)[k].id in s.polled || (k in s.notified && !Tasks(s)[k].done && k !in s.dropped)
      ensures k in s3.dropped && k in Tasks(s3) ==> Tasks(s3)[k].id in s3.cancelled
      ensures k in s.dropped && k % PAGE == 0 ==> Tasks(s3)[k].done == Tasks(s)[k].done
    {
      assert TaskOk(s, k);
      assert SameTask(TakePage(s, p), s2, k);
      assert k in Snapshot(s, p) <==> k in s.notified && !Tasks(s)[k].done && k !in s.dropped;
      assert k in Doomed(s, p) <==> k in s.dropped && k % PAGE != 0;
    }
  }

  lemma PolledBelow(s: Sched)
    requires Inv(s)
    ensures forall id :: id in s.polled ==> id < s.spawned
  {
  }

  /** Only tasks that were there when the page began are polled by it. */
  lemma PagePolledOld(s: Sched, s2: Sched, s3: Sched, p: nat)
    requires PageRun(s, s2, s3, p)
    ensures forall id :: id in s3.polled ==> id < s.spawned
  {
    OldIdsBelow(s);
    PolledBelow(s);
    hide Inv, Grows, Tasks;
    assert Ids(TakePage(s, p)) == Ids(s);
  }

  lemma PageNew(s: Sched, s2: Sched, s3: Sched, p: nat, k: nat)
    requires PageRun(s, s2, s3, p)
    requires k in Tasks(s3) && k !in Tasks(s)
    ensures s.spawned <= Tasks(s3)[k].id
  {
    assert k in Tasks(s2) && Tasks(s2)[k] == Tasks(s3)[k];
  }

  lemma PageUnpolled(s: Sched, s3: Sched, p: nat)
    requires Inv(s) && Unpolled(s, p) && OthersKept(s, s3, p)
    requires forall id :: id in s3.polled ==> id < s.spawned
    requires forall k :: k in Tasks(s3) && k !in Tasks(s) ==> s.spawned <= Tasks(s3)[k].id
    ensures Unpolled(s3, p + 1)
  {
    forall k | k in Tasks(s3) && PAGE * (p + 1) <= k
      ensures Tasks(s3)[k].id !in s3.polled
    {
      if k in Tasks(s) {
        assert k / PAGE != p;
        assert SameTask(s, s3, k);
      }
    }
  }

  lemma OldIdsBelow(s: Sched)
    requires Inv(s)
    ensures forall id :: id in Ids(s) ==> id < s.spawned
  {
    forall id | id in Ids(s)
      ensures id < s.spawned
    {
      var k :| k in Tasks(s) && Tasks(s)[k].id == id;
      assert TaskOk(s, k);
    }
  }

  lemma PageAdvances(s: Sched, s2: Sched, s3: Sched, p: nat)
    requires PageRun(s, s2, s3, p)
    ensures Advances(s, s3) && PollsExplained(s, s3)
  {
  }

  lemma PageLeavers(s: Sched, s2: Sched, s3: Sched, p: nat)
    requires PageRun(s, s2, s3, p)
    ensures LeaversReaped(s, s3)
  {
    forall k | k in Tasks(s)
      ensures SameTask(s, s3, k) || Tasks(s)[k].id in s3.reaped
    {
      assert SameTask(TakePage(s, p), s2, k);
    }
  }

  lemma PageReaps(s: Sched, s2: Sched, s3: Sched, p: nat)
    requires PageRun(s, s2, s3, p)
    ensures ReapsExplained(s, s3)
  {
    DoomedLive(s, s2, p);
    forall id | id in s3.reaped && id !in s.reaped
      ensures DoomedId(s, id)
    {
      var k :| k in Doomed(s, p) && k in Tasks(s2) && Tasks(s2)[k].id == id;
      assert SameTask(TakePage(s, p), s2, k);
      assert k in s.dropped && k in Tasks(s) && k % PAGE != 0 && Tasks(s)[k].id == id;
    }
  }

  lemma PageDrops(s: Sched, s2: Sched, s3: Sched, p: nat)
    requires PageRun(s, s2, s3, p)
    ensures DropsExplained(s, s3)
  {
    forall k | k in s3.dropped && k in Tasks(s3) && Tasks(s3)[k].id !in s3.cancelled
      ensures k in s.dropped && k in Tasks(s) && SameTask(s, s3, k)
    {
      assert k in s2.dropped && k in Tasks(s2);
    }
  }

  lemma PageWakes(s: Sched, s2: Sched, s3: Sched, p: nat)
    requires PageRun(s, s2, s3, p)
    ensures WakesExplained(s, s3)
  {
    forall k | k in s3.notified && k in Tasks(s3) && Tasks(s3)[k].id !in s3.woken && Tasks(s3)[k].id < s.spawned
      ensures k in s.notified && k in Tasks(s) && SameTask(s, s3, k)
    {
      assert k in s2.notified && k in Tasks(s2);
    }
  }

  lemma LeftConserves(s: Sched, s': Sched, gone: set<nat>)
    requires Left(s, s', gone) && gone <= Tasks(s).Keys
    ensures Ids(s') + s'.reaped == Ids(s) + s.reaped
  {
    forall id | id in Ids(s)
      ensures id in Ids(s') + s'.reaped
    {
      var k :| k in Tasks(s) && Tasks(s)[k].id == id;
      if k !in gone {
        assert k in Tasks(s') && Tasks(s')[k] == Tasks(s)[k];
      }
    }
    forall id | id in Ids(s')
      ensures id in Ids(s)
    {
      var k :| k in Tasks(s') && Tasks(s')[k].id == id;
      assert k in Tasks(s) && Tasks(s)[k] == Tasks(s')[k];
    }
  }

  lemma PageConserves(s: Sched, s2: Sched, s3: Sched, p: nat)
    requires PageRun(s, s2, s3, p)
    ensures Conserved(s, s3)
  {
    DoomedLive(s, s2, p);
    LeftConserves(s2, s3, Doomed(s, p));
  }

  /** Everything about one page. */
  lemma PageStep(s: Sched, env: Oracle, p: nat)
    requires Inv(s) && Unpolled(s, p) && PollPage(s, env, p).legal
    ensures var s' := PollPage(s, env, p);
      Inv(s') && Unpolled(s', p + 1) && Later(s, s') && OthersKept(s, s', p) && OwnHandled(s, s', p)
  {
    var s3 := PollPage(s, env, p);
    var s2 := PageRuns(s, env, p);
    PageOthers(s, s2, s3, p);
    PagePolledOld(s, s2, s3, p);
    forall k | k in Tasks(s3) && k !in Tasks(s)
      ensures s.spawned <= Tasks(s3)[k].id
    {
      PageNew(s, s2, s3, p, k);
    }
    PageUnpolled(s, s3, p);
    PageOwn(s, s2, s3, p);
    PageAdvances(s, s2, s3, p);
    PageLeavers(s, s2, s3, p);
    PageReaps(s, s2, s3, p);
    PageDrops(s, s2, s3, p);
    PageWakes(s, s2, s3, p);
    PageConserves(s, s2, s3, p);
  }
}
