/** One call of `Scheduler::poll`, for every behaviour of the futures it runs. */
module SchedulerPass {
  import opened SlabModel
  import opened SchedulerModel

  // -------------------------------------------------------------------------------------
  // Polling one task, and the tasks of one snapshot
  // -------------------------------------------------------------------------------------

  lemma SameIds(m: map<nat, Task>, m': map<nat, Task>)
    requires m.Keys == m'.Keys && forall k :: k in m ==> m'[k].id == m[k].id
    ensures IdsOf(m) == IdsOf(m')
  {
    forall k | k in m
      ensures m[k].id in IdsOf(m')
    {
      assert m'[k].id == m[k].id;
    }
  }

  lemma CompleteKeeps(s: Sched, key: nat)
    requires Inv(s) && key in Tasks(s)
    ensures var s' := Complete(s, key);
      && Inv(s') && Grows(s, s')
      && Tasks(s') == Tasks(s)[key := Tasks(s)[key].(done := true)]
      && s'.polled == s.polled && s'.repolled == s.repolled
  {
    GetIsLookup(s.slab, key);
    var t := Tasks(s)[key].(done := true);
    UpdateRefinesMap(s.slab, key, t);
    var s' := Complete(s, key);
    SameIds(Tasks(s), Tasks(s'));
    forall k | k in Tasks(s')
      ensures TaskOk(s', k)
    {
      assert TaskOk(s, k);
    }
  }

  /** Every task but one keeps its `done` flag. */
  ghost predicate SameDoneBut(s: Sched, s': Sched, key: nat)
    requires Grows(s, s')
  {
    forall k :: k in Tasks(s) && k != key ==> Tasks(s')[k].done == Tasks(s)[k].done
  }

  ghost predicate PolledOne(s: Sched, s': Sched, key: nat)
    requires key in Tasks(s)
  {
    && Grows(s, s')
    && SameDoneBut(s, s', key)
    && s'.polled == s.polled + {Tasks(s)[key].id}
    && s'.repolled == (s.repolled || Tasks(s)[key].id in s.polled)
  }

  lemma ChargeKeeps(s: Sched, id: nat)
    requires Inv(s) && id in Ids(s)
    ensures Inv(Charge(s, id)) && Grows(s, Charge(s, id))
  {
    forall k | k in Tasks(s)
      ensures TaskOk(Charge(s, id), k)
    {
      assert TaskOk(s, k);
    }
  }

  /** The future of a live task runs, and does whatever it does, before it answers. */
  lemma RunKeeps(s: Sched, key: nat, es: seq<Effect>)
    requires Inv(s) && key in Tasks(s)
    requires PerformAll(Charge(s, Tasks(s)[key].id), es).legal
    ensures var s' := PerformAll(Charge(s, Tasks(s)[key].id), es);
      && Inv(s') && PolledOne(s, s', key)
      && Tasks(s')[key].done == Tasks(s)[key].done
  {
    var id := Tasks(s)[key].id;
    ChargeKeeps(s, id);
    PerformAllKeeps(Charge(s, id), es);
    GrowsTransitive(s, Charge(s, id), PerformAll(Charge(s, id), es));
  }

  /**
   Polling a live, unfinished task neither panics nor disturbs another task, whatever its
   future does.
   */
  lemma PollTaskKeeps(s: Sched, env: Oracle, key: nat)
    requires Inv(s) && key in Tasks(s) && !Tasks(s)[key].done
    requires PollTask(s, env, key).legal
    ensures var s' := PollTask(s, env, key);
      && Inv(s') && PolledOne(s, s', key)
      && Tasks(s')[key].done == env(s.polls, Tasks(s)[key].id).ready
  {
    GetIsLookup(s.slab, key);
    var id := Tasks(s)[key].id;
    var resp := env(s.polls, id);
    var s1 := PerformAll(Charge(s, id), resp.effects);
    RunKeeps(s, key, resp.effects);
    if resp.ready {
      CompleteKeeps(s1, key);
      GrowsTransitive(s, s1, Complete(s1, key));
    }
  }

  /** The masked tasks of page `p` from bit `i` on: what the bit loop still has to poll. */
  ghost predicate Ahead(k: nat, p: nat, mask: set<nat>, i: nat) {
    k in mask && PAGE * p + i <= k
  }

  /** They are live, unfinished and not yet polled in this call. */
  ghost predicate Pollable(s: Sched, p: nat, mask: set<nat>, i: nat) {
    && (forall k :: k in mask ==> k in Tasks(s) && k < PAGE * p + PAGE)
    && (forall k :: Ahead(k, p, mask, i) && k in Tasks(s) ==> !Tasks(s)[k].done && Tasks(s)[k].id !in s.polled)
  }

  /**
   A stretch of the bit loop: nobody left, only masked tasks were polled or may have
   finished, and nobody was polled twice.
   */
  ghost predicate Turned(s: Sched, s': Sched, mask: set<nat>) {
    && Grows(s, s')
    && s.polled <= s'.polled
    && s'.repolled == s.repolled
    && (forall k :: k in Tasks(s) && k !in mask ==>
          Tasks(s')[k].done == Tasks(s)[k].done && (Tasks(s)[k].id in s'.polled ==> Tasks(s)[k].id in s.polled))
    && (forall id :: id in s'.polled ==> id in s.polled || id in Ids(s))
  }

  /** Distinct tasks have distinct ids. */
  lemma OtherId(s: Sched, k: nat, k': nat)
    requires Inv(s) && k in Tasks(s) && k' in Tasks(s) && k != k'
    ensures Tasks(s)[k].id != Tasks(s)[k'].id
  {
  }

  lemma PolledOneTurns(s: Sched, s': Sched, key: nat, mask: set<nat>)
    requires Inv(s) && key in mask && key in Tasks(s) && Tasks(s)[key].id !in s.polled
    requires PolledOne(s, s', key)
    ensures Turned(s, s', mask)
  {
    forall k | k in Tasks(s) && k !in mask
      ensures Tasks(s)[k].id in s'.polled ==> Tasks(s)[k].id in s.polled
    {
      OtherId(s, k, key);
    }
  }

  lemma PolledOneLeavesRest(s: Sched, s': Sched, p: nat, mask: set<nat>, i: nat, key: nat)
    requires key == PAGE * p + i && key in mask
    requires Inv(s) && Pollable(s, p, mask, i)
    requires PolledOne(s, s', key)
    ensures Pollable(s', p, mask, i + 1)
  {
    hide Inv, DropsExplained, WakesExplained, Ids, Created;
    forall k | Ahead(k, p, mask, i + 1)
      ensures k in Tasks(s') && !Tasks(s')[k].done && Tasks(s')[k].id !in s'.polled
    {
      assert k != key && Ahead(k, p, mask, i);
      OtherId(s, k, key);
      assert SameTask(s, s', k);
    }
  }

  lemma PollBitTurns(s: Sched, env: Oracle, p: nat, mask: set<nat>, i: nat)
    requires i < PAGE && Inv(s) && Pollable(s, p, mask, i)
    requires PollBit(s, env, p, mask, i).legal
    ensures var s' := PollBit(s, env, p, mask, i);
      Inv(s') && Turned(s, s', mask) && Pollable(s', p, mask, i + 1)
    ensures PAGE * p + i in mask ==> Tasks(s)[PAGE * p + i].id in PollBit(s, env, p, mask, i).polled
  {
    var key := PAGE * p + i;
    TurnedNothing(s, mask);
    if key in mask {
      assert Ahead(key, p, mask, i);
      PollTaskKeeps(s, env, key);
      hide Inv, PollTask, Turned, Grows;
      PolledOneTurns(s, PollTask(s, env, key), key, mask);
      PolledOneLeavesRest(s, PollTask(s, env, key), p, mask, i, key);
    } else {
      assert forall k :: Ahead(k, p, mask, i + 1) ==> Ahead(k, p, mask, i);
    }
  }

  lemma TurnedTransitive(a: Sched, b: Sched, c: Sched, mask: set<nat>)
    requires Turned(a, b, mask) && Turned(b, c, mask)
    requires forall k :: k in mask ==> k in Tasks(a)
    ensures Turned(a, c, mask)
  {
    GrowsTransitive(a, b, c);
    forall k | k in Tasks(a) && k !in mask
      ensures Tasks(c)[k].done == Tasks(a)[k].done
      ensures Tasks(a)[k].id in c.polled ==> Tasks(a)[k].id in a.polled
    {
      assert SameTask(a, b, k);
    }
  }

  lemma TurnedNothing(s: Sched, mask: set<nat>)
    requires Inv(s)
    ensures Turned(s, s, mask) && !s.panicked
  {
  }

  lemma TurnedKeeps(s: Sched, s': Sched, mask: set<nat>)
    requires Turned(s, s', mask)
    ensures s.polled <= s'.polled && forall k :: k in Tasks(s) ==> SameTask(s, s', k)
  {
  }

  /** Each masked task from bit `i` on has been polled. */
  ghost predicate AllPolled(s: Sched, s': Sched, p: nat, mask: set<nat>, i: nat) {
    forall k :: Ahead(k, p, mask, i) && k in Tasks(s) ==> Tasks(s)[k].id in s'.polled
  }

  lemma AheadStep(k: nat, p: nat, mask: set<nat>, i: nat)
    requires Ahead(k, p, mask, i)
    ensures k == PAGE * p + i || Ahead(k, p, mask, i + 1)
  {
  }

  lemma AllPolledStep(s: Sched, s1: Sched, s2: Sched, p: nat, mask: set<nat>, i: nat)
    requires Turned(s, s1, mask) && Turned(s1, s2, mask) && AllPolled(s1, s2, p, mask, i + 1)
    requires PAGE * p + i in mask && PAGE * p + i in Tasks(s) ==> Tasks(s)[PAGE * p + i].id in s1.polled
    ensures AllPolled(s, s2, p, mask, i)
  {
    hide Turned, Ahead;
    TurnedKeeps(s, s1, mask);
    TurnedKeeps(s1, s2, mask);
    forall k | Ahead(k, p, mask, i) && k in Tasks(s)
      ensures Tasks(s)[k].id in s2.polled
    {
      AheadStep(k, p, mask, i);
      AheadMasked(k, p, mask, i);
      assert SameTask(s, s1, k);
    }
  }

  lemma AheadMasked(k: nat, p: nat, mask: set<nat>, i: nat)
    requires Ahead(k, p, mask, i)
    ensures k in mask
  {
  }

  lemma MaskLive(s: Sched, p: nat, mask: set<nat>, i: nat)
    requires Pollable(s, p, mask, i)
    ensures forall k :: k in mask ==> k in Tasks(s)
    ensures i == PAGE ==> AllPolled(s, s, p, mask, i)
  {
  }

  /** The bit loop runs to its end, whatever the futures it polls do. */
  lemma {:induction false} PollBitsTurns(s: Sched, env: Oracle, p: nat, mask: set<nat>, i: nat)
    requires i <= PAGE && Inv(s) && Pollable(s, p, mask, i)
    requires PollBits(s, env, p, mask, i).legal
    ensures Inv(PollBits(s, env, p, mask, i))
    ensures Turned(s, PollBits(s, env, p, mask, i), mask)
    ensures AllPolled(s, PollBits(s, env, p, mask, i), p, mask, i)
    decreases PAGE - i
  {
    hide Inv, PollBit, Turned, Pollable, AllPolled;
    TurnedNothing(s, mask);
    MaskLive(s, p, mask, i);
    if i < PAGE {
      var s1 := PollBit(s, env, p, mask, i);
      PollBitTurns(s, env, p, mask, i);
      PollBitsTurns(s1, env, p, mask, i + 1);
      var s2 := PollBits(s1, env, p, mask, i + 1);
      TurnedTransitive(s, s1, s2, mask);
      AllPolledStep(s, s1, s2, p, mask, i);
    }
  }

  // -------------------------------------------------------------------------------------
  // Reaping the dropped tasks of one page
  // -------------------------------------------------------------------------------------

  /** The keys the reaping loop still removes: those of its mask that are not at bit 0. */
  ghost function Reapable(mask: set<nat>, p: nat, i: nat): (r: set<nat>) {
    set k | k in mask && k / PAGE == p && k % PAGE != 0 && i <= k % PAGE
  }

  /** The state after `gone` left, with their flags. */
  ghost predicate Left(s: Sched, s': Sched, gone: set<nat>) {
    && Good(s'.slab)
    && Tasks(s') == Tasks(s) - gone
    && s' == s.(slab := s'.slab, notified := s.notified - gone, completed := s.completed - gone,
                dropped := s.dropped - gone, reaped := s'.reaped)
    && s'.reaped == s.reaped + set k | k in gone && k in Tasks(s) :: Tasks(s)[k].id
  }

  lemma LeftInv(s: Sched, s': Sched, gone: set<nat>)
    requires Inv(s) && Left(s, s', gone)
    ensures Inv(s')
  {
    forall k | k in Tasks(s')
      ensures TaskOk(s', k)
    {
      assert TaskOk(s, k);
    }
  }

  lemma ReapLeaves(s: Sched, key: nat)
    requires Inv(s) && key in Tasks(s)
    ensures Left(s, Reap(s, key), {key})
  {
    RemoveRefinesMap(s.slab, key);
    assert (set k | k in {key} && k in Tasks(s) :: Tasks(s)[k].id) == {Tasks(s)[key].id};
  }

  lemma LeftTransitive(a: Sched, b: Sched, c: Sched, g: set<nat>, h: set<nat>)
    requires Left(a, b, g) && Left(b, c, h) && g !! h
    ensures Left(a, c, g + h)
  {
    forall k | k in h && k in Tasks(a)
      ensures Tasks(a)[k].id in c.reaped
    {
      assert k in Tasks(b) && Tasks(b)[k] == Tasks(a)[k];
    }
  }

  /** The key at bit `i`, if the loop removes it. */
  ghost function ReapableAt(mask: set<nat>, i: nat, key: nat): (r: set<nat>) {
    if key in mask && i != 0 then {key} else {}
  }

  lemma ReapableStep(mask: set<nat>, p: nat, i: nat, key: nat)
    requires i < PAGE && key == PAGE * p + i
    ensures Reapable(mask, p, i) == ReapableAt(mask, i, key) + Reapable(mask, p, i + 1)
    ensures ReapableAt(mask, i, key) !! Reapable(mask, p, i + 1)
  {
    assert key / PAGE == p && key % PAGE == i;
  }

  lemma ReapBitLeaves(s: Sched, p: nat, mask: set<nat>, i: nat, key: nat)
    requires i < PAGE && key == PAGE * p + i && Inv(s)
    requires key in mask && i != 0 ==> key in Tasks(s)
    ensures Left(s, ReapBit(s, p, mask, i), ReapableAt(mask, i, key))
  {
    if key in mask && i != 0 {
      ReapLeaves(s, key);
    }
  }

  lemma ReapableEnd(mask: set<nat>, p: nat)
    ensures Reapable(mask, p, PAGE) == {}
  {
  }

  lemma LeftNobody(s: Sched)
    requires Inv(s)
    ensures Left(s, s, {})
  {
  }

  /** The reaping loop removes exactly the masked tasks that are not at bit 0. */
  lemma {:induction false} ReapBitsLeaves(s: Sched, p: nat, mask: set<nat>, i: nat)
    requires i <= PAGE && Inv(s)
    requires Reapable(mask, p, i) <= Tasks(s).Keys
    ensures Left(s, ReapBits(s, p, mask, i), Reapable(mask, p, i))
    decreases PAGE - i
  {
    hide Inv, ReapBit, Reapable, Good;
    if i == PAGE {
      ReapableEnd(mask, p);
      LeftNobody(s);
    } else {
      var gone := ReapableAt(mask, i, PAGE * p + i);
      var s1 := ReapBit(s, p, mask, i);
      ReapableStep(mask, p, i, PAGE * p + i);
      ReapBitLeaves(s, p, mask, i, PAGE * p + i);
      LeftInv(s, s1, gone);
      ReapBitsLeaves(s1, p, mask, i + 1);
      LeftTransitive(s, s1, ReapBits(s1, p, mask, i + 1), gone, Reapable(mask, p, i + 1));
    }
  }

  // -------------------------------------------------------------------------------------
  // One page
  // -------------------------------------------------------------------------------------

  /** No task from page `p` on has been polled in this call. */
  ghost predicate Unpolled(s: Sched, p: nat) {
    forall k :: k in Tasks(s) && PAGE * p <= k ==> Tasks(s)[k].id !in s.polled
  }

  /** The tasks one page reaps: those flagged dropped in it, except at bit 0. */
  ghost function Doomed(s: Sched, p: nat): (r: set<nat>) {
    Reapable(InPage(s.dropped, p), p, 0)
  }

  /** The tasks of other pages are not touched, save for being woken or cancelled. */
  ghost predicate OthersKept(s: Sched, s': Sched, p: nat) {
    forall k :: k in Tasks(s) && k / PAGE != p ==>
      && SameTask(s, s', k)
      && Tasks(s')[k].done == Tasks(s)[k].done
      && (k in s.notified ==> k in s'.notified)
      && (k in s.dropped ==> k in s'.dropped)
      && (Tasks(s)[k].id in s'.polled ==> Tasks(s)[k].id in s.polled)
  }

  /** What a page does to its own tasks. */
  ghost predicate OwnHandled(s: Sched, s': Sched, p: nat) {
    forall k :: k in Tasks(s) && k / PAGE == p ==>
      && (if k in s.dropped && k % PAGE != 0
          then k !in Tasks(s') && Tasks(s)[k].id in s'.reaped
          else SameTask(s, s', k))
      && (Tasks(s)[k].id in s'.polled <==>
            Tasks(s)[k].id in s.polled || (k in s.notified && !Tasks(s)[k].done && k !in s.dropped))
      && (k in s'.dropped && k in Tasks(s') ==> Tasks(s')[k].id in s'.cancelled)
      && (k in s.dropped && k % PAGE == 0 ==> Tasks(s')[k].done == Tasks(s)[k].done)
  }

  /** Counters and books only grow. */
  ghost predicate Advances(s: Sched, s': Sched) {
    && s.pages <= s'.pages
    && s.issued <= s'.issued
    && s.spawned <= s'.spawned
    && s.polled <= s'.polled
    && s.woken <= s'.woken
    && s.cancelled <= s'.cancelled
    && s.reaped <= s'.reaped
    && (s'.repolled ==> s.repolled)
  }

  /** Whoever left was reaped. */
  ghost predicate LeaversReaped(s: Sched, s': Sched) {
    forall k :: k in Tasks(s) ==> SameTask(s, s', k) || Tasks(s)[k].id in s'.reaped
  }

  /** Whoever was polled was there before or is new. */
  ghost predicate PollsExplained(s: Sched, s': Sched) {
    forall id :: id in s'.polled ==> id in s.polled || id in Ids(s) || s.spawned <= id
  }

  ghost predicate DoomedId(s: Sched, id: nat) {
    exists k :: k in s.dropped && k in Tasks(s) && k % PAGE != 0 && Tasks(s)[k].id == id
  }

  /** Whoever was reaped was cancelled in this call or flagged, away from bit 0, before. */
  ghost predicate ReapsExplained(s: Sched, s': Sched) {
    forall id :: id in s'.reaped ==> id in s.reaped || id in s'.cancelled || DoomedId(s, id)
  }

  /** Tasks are conserved: old and new ones are either live or reaped. */
  ghost predicate Conserved(s: Sched, s': Sched) {
    Ids(s') + s'.reaped == Ids(s) + s.reaped + Created(s, s')
  }

  /** How two moments of one call are related. */
  ghost predicate Later(s: Sched, s': Sched) {
    && Advances(s, s')
    && LeaversReaped(s, s')
    && PollsExplained(s, s')
    && ReapsExplained(s, s')
    && DropsExplained(s, s')
    && WakesExplained(s, s')
    && Conserved(s, s')
  }

  lemma PollsTransitive(a: Sched, b: Sched, c: Sched)
    requires Inv(b) && Advances(a, b) && Advances(b, c) && Conserved(a, b)
    requires PollsExplained(a, b) && PollsExplained(b, c)
    ensures PollsExplained(a, c)
  {
    forall id | id in c.polled && id !in a.polled && id < a.spawned
      ensures id in Ids(a)
    {
      if id !in b.polled {
        assert id in Ids(b);
        var k :| k in Tasks(b) && Tasks(b)[k].id == id;
        assert TaskOk(b, k);
        assert id in Ids(b) + b.reaped;
      }
    }
  }

  lemma DropsTransitive(a: Sched, b: Sched, c: Sched)
    requires Advances(a, b) && Advances(b, c)
    requires DropsExplained(a, b) && DropsExplained(b, c)
    ensures DropsExplained(a, c)
  {
  }

  lemma WakesTransitive(a: Sched, b: Sched, c: Sched)
    requires Advances(a, b) && Advances(b, c)
    requires WakesExplained(a, b) && WakesExplained(b, c)
    ensures WakesExplained(a, c)
  {
  }

  lemma ReapsTransitive(a: Sched, b: Sched, c: Sched)
    requires Advances(a, b) && Advances(b, c) && DropsExplained(a, b)
    requires ReapsExplained(a, b) && ReapsExplained(b, c)
    ensures ReapsExplained(a, c)
  {
    forall id | id in c.reaped && id !in a.reaped && id !in c.cancelled
      ensures DoomedId(a, id)
    {
      if id !in b.reaped {
        var k :| k in b.dropped && k in Tasks(b) && k % PAGE != 0 && Tasks(b)[k].id == id;
        assert k in a.dropped && k in Tasks(a) && Tasks(a)[k].id == id;
      }
    }
  }

  lemma LeaversTransitive(a: Sched, b: Sched, c: Sched)
    requires Advances(b, c) && LeaversReaped(a, b) && LeaversReaped(b, c)
    ensures LeaversReaped(a, c)
  {
    forall k | k in Tasks(a) && Tasks(a)[k].id !in c.reaped
      ensures SameTask(a, c, k)
    {
      assert SameTask(a, b, k);
      assert SameTask(b, c, k);
    }
  }

  lemma ConservedTransitive(a: Sched, b: Sched, c: Sched)
    requires Advances(a, b) && Advances(b, c) && Conserved(a, b) && Conserved(b, c)
    ensures Conserved(a, c)
  {
    assert Created(a, c) == Created(a, b) + Created(b, c);
  }

  lemma LaterTransitive(a: Sched, b: Sched, c: Sched)
    requires Inv(b) && Later(a, b) && Later(b, c)
    ensures Later(a, c)
  {
    PollsTransitive(a, b, c);
    DropsTransitive(a, b, c);
    WakesTransitive(a, b, c);
    ReapsTransitive(a, b, c);
    LeaversTransitive(a, b, c);
    ConservedTransitive(a, b, c);
  }
}
