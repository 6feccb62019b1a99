/**
 No wake-up is lost: whoever is created or woken, before a call of `poll`, between calls or by a
 future running in one, carries the notified flag until it is polled.
 */
module SchedulerWakes {
  import opened SlabModel
  import opened SchedulerModel
  import opened SchedulerPass
  import opened SchedulerPage
  import opened SchedulerCall

  /** An unfinished, undropped task that is due carries the notified flag. */
  ghost predicate HeardAt(s: Sched, k: nat)
    requires k in Tasks(s)
  {
    Tasks(s)[k].id in s.due && !Tasks(s)[k].done && k !in s.dropped ==> k in s.notified
  }

  /** All do, except those of the current snapshot that are still to be polled. */
  ghost predicate Heard(s: Sched, waiting: set<nat>) {
    forall k :: k in Tasks(s) && k !in waiting ==> HeardAt(s, k)
  }

  /** The task was flagged dropped at an earlier moment already. */
  ghost predicate WasDropped(s0: Sched, s: Sched, k: nat)
    requires k in Tasks(s)
  {
    k in s0.dropped && k in Tasks(s0) && Tasks(s0)[k].id == Tasks(s)[k].id
  }

  /** Whoever was woken in this call, or created since `s0`, is due, or was polled, or was dropped. */
  ghost predicate BookedAt(s0: Sched, s: Sched, k: nat)
    requires k in Tasks(s)
  {
    var id := Tasks(s)[k].id;
    id in s.woken || s0.spawned <= id ==>
      id in s.due || id in s.polled || id in s.cancelled || WasDropped(s0, s, k)
  }

  ghost predicate Booked(s0: Sched, s: Sched) {
    forall k :: k in Tasks(s) ==> BookedAt(s0, s, k)
  }

  /** Nothing is forgotten at a moment of the call that began at `s0`. */
  ghost predicate Attended(s0: Sched, s: Sched, waiting: set<nat>) {
    && Heard(s, waiting)
    && Booked(s0, s)
    && s0.spawned <= s.spawned
    && waiting <= Tasks(s).Keys
  }

  // -------------------------------------------------------------------------------------
  // Effects
  // -------------------------------------------------------------------------------------

  lemma InsertAttends(s0: Sched, s: Sched, kind: Kind, waiting: set<nat>)
    requires Inv(s) && Attended(s0, s, waiting)
    ensures Attended(s0, SchedulerModel.Insert(s, kind).s, waiting)
  {
    InsertBears(s, kind);
    var s' := SchedulerModel.Insert(s, kind).s;
    forall k | k in Tasks(s') && k in Tasks(s)
      ensures k !in waiting ==> HeardAt(s', k)
      ensures BookedAt(s0, s', k)
    {
      assert TaskOk(s, k);
      assert BookedAt(s0, s, k);
      assert k !in waiting ==> HeardAt(s, k);
    }
  }

  lemma WakeAttends(s0: Sched, s: Sched, key: nat, waiting: set<nat>)
    requires Inv(s) && Attended(s0, s, waiting) && WakeUp(s, key).legal
    ensures Attended(s0, WakeUp(s, key), waiting)
  {
    WakeKeeps(s, key);
    GetIsLookup(s.slab, key);
    var s' := WakeUp(s, key);
    forall k | k in Tasks(s')
      ensures k !in waiting ==> HeardAt(s', k)
      ensures BookedAt(s0, s', k)
    {
      assert BookedAt(s0, s, k);
      assert k !in waiting ==> HeardAt(s, k);
      if k != key {
        OtherId(s, k, key);
      }
    }
  }

  lemma DropAttends(s0: Sched, s: Sched, key: nat, waiting: set<nat>)
    requires Inv(s) && Attended(s0, s, waiting) && DropHandle(s, key).legal
    ensures Attended(s0, DropHandle(s, key), waiting)
  {
    var s' := DropHandle(s, key);
    forall k | k in Tasks(s')
      ensures k !in waiting ==> HeardAt(s', k)
      ensures BookedAt(s0, s', k)
    {
      assert BookedAt(s0, s, k);
      assert k !in waiting ==> HeardAt(s, k);
    }
  }

  lemma PerformAttends(s0: Sched, s: Sched, e: Effect, waiting: set<nat>)
    requires Inv(s) && Attended(s0, s, waiting) && Perform(s, e).legal
    ensures Attended(s0, Perform(s, e), waiting)
  {
    match e
    case Spawn(kind) => InsertAttends(s0, s, kind, waiting);
    case Wake(key) => WakeAttends(s0, s, key, waiting);
    case Cancel(key) => DropAttends(s0, s, key, waiting);
  }

  lemma {:induction false} PerformAllAttends(s0: Sched, s: Sched, es: seq<Effect>, waiting: set<nat>)
    requires Inv(s) && Attended(s0, s, waiting) && PerformAll(s, es).legal
    ensures Attended(s0, PerformAll(s, es), waiting)
    decreases |es|
  {
    hide Inv, Attended, Perform;
    if es != [] {
      PerformKeeps(s, es[0]);
      PerformAttends(s0, s, es[0], waiting);
      PerformAllAttends(s0, Perform(s, es[0]), es[1..], waiting);
    }
  }

  // -------------------------------------------------------------------------------------
  // One page
  // -------------------------------------------------------------------------------------

  /** A task of the snapshot is charged for its poll: nothing is owed to it any more. */
  lemma ChargeAttends(s0: Sched, s: Sched, key: nat, waiting: set<nat>)
    requires Inv(s) && key in Tasks(s) && Attended(s0, s, waiting + {key})
    ensures Attended(s0, Charge(s, Tasks(s)[key].id), waiting)
  {
    var s' := Charge(s, Tasks(s)[key].id);
    forall k | k in Tasks(s')
      ensures k !in waiting ==> HeardAt(s', k)
      ensures BookedAt(s0, s', k)
    {
      assert BookedAt(s0, s, k);
      assert k !in waiting + {key} ==> HeardAt(s, k);
    }
  }

  lemma CompleteAttends(s0: Sched, s: Sched, key: nat, waiting: set<nat>)
    requires Inv(s) && key in Tasks(s) && Attended(s0, s, waiting)
    ensures Attended(s0, Complete(s, key), waiting)
  {
    CompleteKeeps(s, key);
    var s' := Complete(s, key);
    forall k | k in Tasks(s')
      ensures k !in waiting ==> HeardAt(s', k)
      ensures BookedAt(s0, s', k)
    {
      assert BookedAt(s0, s, k);
      assert k !in waiting ==> HeardAt(s, k);
    }
  }

  lemma PollTaskAttends(s0: Sched, s: Sched, env: Oracle, key: nat, waiting: set<nat>)
    requires Inv(s) && key in Tasks(s) && !Tasks(s)[key].done && PollTask(s, env, key).legal
    requires Attended(s0, s, waiting + {key})
    ensures Attended(s0, PollTask(s, env, key), waiting)
  {
    GetIsLookup(s.slab, key);
    var id := Tasks(s)[key].id;
    var resp := env(s.polls, id);
    var s1 := PerformAll(Charge(s, id), resp.effects);
    ChargeKeeps(s, id);
    ChargeAttends(s0, s, key, waiting);
    RunKeeps(s, key, resp.effects);
    assert SameTask(s, s1, key);
    hide Inv, Attended, Grows, Charge;
    PerformAllAttends(s0, Charge(s, id), resp.effects, waiting);
    if resp.ready {
      CompleteAttends(s0, s1, key, waiting);
    }
  }

  /** The tasks of a snapshot from bit `i` on. */
  ghost function Rest(p: nat, mask: set<nat>, i: nat): (r: set<nat>) {
    set k | k in mask && PAGE * p + i <= k
  }

  lemma RestStep(p: nat, mask: set<nat>, i: nat)
    ensures Rest(p, mask, i) == Rest(p, mask, i + 1) + (if PAGE * p + i in mask then {PAGE * p + i} else {})
  {
  }

  lemma RestEnd(s: Sched, p: nat, mask: set<nat>)
    requires Pollable(s, p, mask, PAGE)
    ensures Rest(p, mask, PAGE) == {}
  {
  }

  lemma BitAttends(s0: Sched, s: Sched, env: Oracle, p: nat, mask: set<nat>, i: nat)
    requires i < PAGE && Inv(s) && Pollable(s, p, mask, i) && PollBit(s, env, p, mask, i).legal
    requires Attended(s0, s, Rest(p, mask, i))
    ensures Attended(s0, PollBit(s, env, p, mask, i), Rest(p, mask, i + 1))
  {
    var key := PAGE * p + i;
    RestStep(p, mask, i);
    if key in mask {
      assert Ahead(key, p, mask, i);
      hide Inv, Attended, PollTask;
      PollTaskAttends(s0, s, env, key, Rest(p, mask, i + 1));
    } else {
      assert Rest(p, mask, i) == Rest(p, mask, i + 1);
    }
  }

  lemma {:induction false} BitsAttend(s0: Sched, s: Sched, env: Oracle, p: nat, mask: set<nat>, i: nat)
    requires i <= PAGE && Inv(s) && Pollable(s, p, mask, i) && PollBits(s, env, p, mask, i).legal
    requires Attended(s0, s, Rest(p, mask, i))
    ensures Attended(s0, PollBits(s, env, p, mask, i), {})
    decreases PAGE - i
  {
    TurnedNothing(s, mask);
    if i == PAGE {
      RestEnd(s, p, mask);
    } else {
      hide Inv, Attended, PollBit, Pollable, Rest, Turned;
      PollBitTurns(s, env, p, mask, i);
      BitAttends(s0, s, env, p, mask, i);
      BitsAttend(s0, PollBit(s, env, p, mask, i), env, p, mask, i + 1);
    }
  }

  /**
   The snapshot is taken: whoever loses the notified flag by it is polled from it, unless
   completed or dropped.
   */
  lemma TakePageAttends(s0: Sched, s: Sched, p: nat)
    requires Inv(s) && Attended(s0, s, {}) && DropsExplained(s0, s)
    ensures Attended(s0, TakePage(s, p), Rest(p, Snapshot(s, p), 0))
  {
    var s', waiting := TakePage(s, p), Rest(p, Snapshot(s, p), 0);
    assert waiting == Snapshot(s, p);
    forall k | k in Tasks(s)
      ensures k !in waiting ==> HeardAt(s', k)
      ensures BookedAt(s0, s', k)
    {
      assert TaskOk(s, k) && HeardAt(s, k) && BookedAt(s0, s, k);
      DroppedIdsAre(s, p, k);
    }
  }

  lemma DroppedIdsAre(s: Sched, p: nat, k: nat)
    requires Inv(s) && k in Tasks(s)
    ensures Tasks(s)[k].id in DroppedIds(s, p) <==> k in InPage(s.dropped, p)
  {
    GetIsLookup(s.slab, k);
    if Tasks(s)[k].id in DroppedIds(s, p) {
      var j :| j in InPage(s.dropped, p) && Get(s.slab, j).Some? && Get(s.slab, j).value.id == Tasks(s)[k].id;
      GetIsLookup(s.slab, j);
    }
  }

  lemma LeftAttends(s0: Sched, s: Sched, s': Sched, gone: set<nat>)
    requires Left(s, s', gone) && Attended(s0, s, {})
    ensures Attended(s0, s', {})
  {
    forall k | k in Tasks(s')
      ensures HeardAt(s', k) && BookedAt(s0, s', k)
    {
      assert HeardAt(s, k) && BookedAt(s0, s, k);
    }
  }

  lemma PageAttends(s0: Sched, s: Sched, env: Oracle, p: nat)
    requires Inv(s) && Unpolled(s, p) && PollPage(s, env, p).legal
    requires Attended(s0, s, {}) && DropsExplained(s0, s)
    ensures Attended(s0, PollPage(s, env, p), {})
  {
    var s1, mask := TakePage(s, p), Snapshot(s, p);
    TakePageKeeps(s, p);
    SnapshotPollable(s, p);
    TakePageAttends(s0, s, p);
    var s2 := PollBits(s1, env, p, mask, 0);
    assert s2.legal;
    hide Attended, DropsExplained;
    BitsAttend(s0, s1, env, p, mask, 0);
    PollBitsTurns(s1, env, p, mask, 0);
    DoomedLive(s, s2, p);
    ReapBitsLeaves(s2, p, InPage(s.dropped, p), 0);
    LeftAttends(s0, s2, PollPage(s, env, p), Doomed(s, p));
  }

  // -------------------------------------------------------------------------------------
  // A whole call
  // -------------------------------------------------------------------------------------

  lemma {:induction false} PagesAttend(s0: Sched, s: Sched, env: Oracle, p: nat, n: nat)
    requires p <= n && Inv(s0) && Inv(s) && Unpolled(s, p) && PollPages(s, env, p, n).legal
    requires Later(s0, s) && Attended(s0, s, {})
    ensures Attended(s0, PollPages(s, env, p, n), {})
    decreases n - p
  {
    if p < n {
      var s1 := PollPage(s, env, p);
      OnePage(s, env, p, n);
      hide Inv, Unpolled, Attended, PollPage, PollPages, OwnHandled, OthersKept;
      PageStep(s, env, p);
      PageAttends(s0, s, env, p);
      LaterTransitive(s0, s, s1);
      PagesAttend(s0, s1, env, p + 1, n);
    }
  }

  lemma BeginAttends(s: Sched)
    requires Inv(s) && Heard(s, {})
    ensures Attended(Begin(s), Begin(s), {}) && Later(Begin(s), Begin(s))
  {
    var s0 := Begin(s);
    forall k | k in Tasks(s0)
      ensures HeardAt(s0, k) && BookedAt(s0, s0, k)
    {
      assert TaskOk(s, k) && HeardAt(s, k);
    }
    assert Created(s0, s0) == {};
  }

  lemma PollAttends(s: Sched, env: Oracle)
    requires Inv(s) && Heard(s, {}) && Poll(s, env).legal
    ensures Attended(Begin(s), Poll(s, env), {}) && DropsExplained(Begin(s), Poll(s, env))
  {
    BeginKeeps(s);
    BeginAttends(s);
    PollPagesKeeps(Begin(s), env, 0, s.pages);
    hide Inv, Unpolled, PollPages, Attended;
    PagesAttend(Begin(s), Begin(s), env, 0, s.pages);
  }

  /**
   Who was woken or created in a call and not polled in it carries the notified flag when the call
   ends, unless it completed, or was dropped before the call or in it.
   */
  lemma WakeUpSurvives(s: Sched, env: Oracle, k: nat)
    requires Inv(s) && Heard(s, {}) && Poll(s, env).legal && k in Tasks(Poll(s, env))
    requires var s', id := Poll(s, env), Tasks(Poll(s, env))[k].id;
      && (id in s'.woken || id in Created(s, s'))
      && id !in s'.polled && id !in s'.cancelled && !Tasks(s')[k].done
      && !WasDropped(s, s', k)
    ensures k in Poll(s, env).notified && k !in Poll(s, env).dropped
  {
    var s' := Poll(s, env);
    PollAttends(s, env);
    assert HeardAt(s', k) && BookedAt(Begin(s), s', k);
  }

  /**
   Who was woken in a call after its poll in it, too: it is due, and so it carries the flag. The
   same goes for anyone who is due, between calls and over whole runs.
   */
  lemma DueIsNotified(s: Sched, env: Oracle, k: nat)
    requires Inv(s) && Heard(s, {}) && Poll(s, env).legal && k in Tasks(Poll(s, env))
    requires var s' := Poll(s, env); Tasks(s')[k].id in s'.due && !Tasks(s')[k].done && k !in s'.dropped
    ensures k in Poll(s, env).notified
  {
    PollAttends(s, env);
    assert HeardAt(Poll(s, env), k);
  }

  /**
   Over two calls: whoever is due after one call, because it was woken or created in it or before,
   is polled by the end of the next, unless it has completed, was dropped or is cancelled.
   */
  lemma PolledByNextCall(s: Sched, env: Oracle, env': Oracle, k: nat)
    requires Inv(s) && Heard(s, {}) && Poll(s, env).legal && Poll(Poll(s, env), env').legal
    requires k in Tasks(Poll(s, env))
    requires var s1 := Poll(s, env); Tasks(s1)[k].id in s1.due && !Tasks(s1)[k].done && k !in s1.dropped
    ensures var s1, s2 := Poll(s, env), Poll(Poll(s, env), env');
      Tasks(s1)[k].id in s2.polled || Tasks(s1)[k].id in s2.cancelled
  {
    PollSafe(s, env);
    DueIsNotified(s, env, k);
    WokenIsPolled(Poll(s, env), env', k);
  }

  /**
   Over two calls, in terms of wake-ups: whoever is woken or created in one call has been polled by
   the end of the next, unless it completed, was dropped or was cancelled.
   */
  lemma WokenIsPolledSoon(s: Sched, env: Oracle, env': Oracle, k: nat)
    requires Inv(s) && Heard(s, {}) && Poll(s, env).legal && Poll(Poll(s, env), env').legal
    requires k in Tasks(Poll(s, env))
    requires var s1, id := Poll(s, env), Tasks(Poll(s, env))[k].id;
      && (id in s1.woken || id in Created(s, s1))
      && id !in s1.cancelled && !Tasks(s1)[k].done && !WasDropped(s, s1, k)
    ensures var s1, s2, id := Poll(s, env), Poll(Poll(s, env), env'), Tasks(Poll(s, env))[k].id;
      id in s1.polled || id in s2.polled || id in s2.cancelled
  {
    var s1 := Poll(s, env);
    PollSafe(s, env);
    if Tasks(s1)[k].id !in s1.polled {
      WakeUpSurvives(s, env, k);
      WokenIsPolled(s1, env', k);
    }
  }

  // -------------------------------------------------------------------------------------
  // A task that wakes itself
  // -------------------------------------------------------------------------------------

  /** Whenever the task is polled, it wakes itself. */
  ghost predicate Restless(env: Oracle, id: nat, k: nat) {
    forall n :: Effect.Wake(k) in env(n, id).effects
  }

  /** If it has been polled in this call, it is due again. */
  ghost predicate DueAgain(s: Sched, k: nat, id: nat) {
    k in Tasks(s) && Tasks(s)[k].id == id && id in s.polled ==> id in s.due
  }

  /** What is due stays due while effects are performed. */
  lemma {:induction false} DueStays(s: Sched, es: seq<Effect>)
    requires PerformAll(s, es).legal
    ensures s.due <= PerformAll(s, es).due
    decreases |es|
  {
    if es != [] {
      DueStays(Perform(s, es[0]), es[1..]);
    }
  }

  lemma {:induction false} WakeIsDue(s: Sched, es: seq<Effect>, k: nat, id: nat)
    requires Inv(s) && PerformAll(s, es).legal && Effect.Wake(k) in es && k in Tasks(s) && Tasks(s)[k].id == id
    ensures id in PerformAll(s, es).due
    decreases |es|
  {
    var s' := Perform(s, es[0]);
    PerformKeeps(s, es[0]);
    if es[0] == Effect.Wake(k) {
      GetIsLookup(s.slab, k);
      assert TaskOk(s, k);
      DueStays(s', es[1..]);
    } else {
      assert SameTask(s, s', k);
      hide Inv, Perform;
      WakeIsDue(s', es[1..], k, id);
    }
  }

  /** What a poll does to the books. */
  lemma PollTaskBooks(s: Sched, env: Oracle, key: nat)
    requires Inv(s) && key in Tasks(s) && !Tasks(s)[key].done && PollTask(s, env, key).legal
    ensures var id, s' := Tasks(s)[key].id, PollTask(s, env, key);
      && PerformAll(Charge(s, id), env(s.polls, id).effects).legal
      && s'.polled == s.polled + {id}
      && s'.due == PerformAll(Charge(s, id), env(s.polls, id).effects).due
  {
    GetIsLookup(s.slab, key);
    hide Inv, Grows, PerformAll, SlabModel.Get, SlabModel.Update;
    PollTaskKeeps(s, env, key);
  }

  /** Its own poll leaves it due; the poll of another does not touch that. */
  lemma PollTaskDue(s: Sched, env: Oracle, key: nat, k: nat, id: nat)
    requires Inv(s) && key in Tasks(s) && !Tasks(s)[key].done && PollTask(s, env, key).legal
    requires Restless(env, id, k) && DueAgain(s, k, id) && k in Tasks(s) && Tasks(s)[k].id == id
    ensures DueAgain(PollTask(s, env, key), k, id)
  {
    var other := Tasks(s)[key].id;
    var resp := env(s.polls, other);
    var s1 := Charge(s, other);
    ChargeKeeps(s, other);
    PollTaskBooks(s, env, key);
    DueStays(s1, resp.effects);
    if key == k {
      assert Effect.Wake(k) in resp.effects;
      WakeIsDue(s1, resp.effects, k, id);
    } else {
      OtherId(s, k, key);
    }
    hide Inv, Grows, PollTask, PerformAll, Restless;
  }

  lemma BitDue(s: Sched, env: Oracle, p: nat, mask: set<nat>, i: nat, k: nat, id: nat)
    requires i < PAGE && Inv(s) && Pollable(s, p, mask, i) && PollBit(s, env, p, mask, i).legal
    requires Restless(env, id, k) && DueAgain(s, k, id) && k in Tasks(s) && Tasks(s)[k].id == id
    ensures DueAgain(PollBit(s, env, p, mask, i), k, id)
  {
    var key := PAGE * p + i;
    if key in mask {
      assert Ahead(key, p, mask, i);
      hide Inv, Restless, DueAgain, PollTask;
      PollTaskDue(s, env, key, k, id);
    }
  }

  lemma {:induction false} BitsDue(s: Sched, env: Oracle, p: nat, mask: set<nat>, i: nat, k: nat, id: nat)
    requires i <= PAGE && Inv(s) && Pollable(s, p, mask, i) && PollBits(s, env, p, mask, i).legal
    requires Restless(env, id, k) && DueAgain(s, k, id) && k in Tasks(s) && Tasks(s)[k].id == id
    ensures DueAgain(PollBits(s, env, p, mask, i), k, id)
    decreases PAGE - i
  {
    hide Inv, Restless, DueAgain, Turned, PollTask, PollBit, Pollable;
    TurnedNothing(s, mask);
    if i < PAGE {
      var s1 := PollBit(s, env, p, mask, i);
      PollBitTurns(s, env, p, mask, i);
      TurnedKeeps(s, s1, mask);
      assert SameTask(s, s1, k);
      BitDue(s, env, p, mask, i, k, id);
      BitsDue(s1, env, p, mask, i + 1, k, id);
    }
  }

  lemma PageDue(s: Sched, env: Oracle, p: nat, k: nat, id: nat)
    requires Inv(s) && Unpolled(s, p) && PollPage(s, env, p).legal
    requires Restless(env, id, k) && DueAgain(s, k, id) && k in Tasks(s) && Tasks(s)[k].id == id
    requires id in s.polled ==> k / PAGE < p
    ensures DueAgain(PollPage(s, env, p), k, id)
  {
    var s1, mask := TakePage(s, p), Snapshot(s, p);
    TakePageKeeps(s, p);
    SnapshotPollable(s, p);
    DroppedIdsAre(s, p, k);
    var s2 := PollBits(s1, env, p, mask, 0);
    assert s2.legal;
    BitsDue(s1, env, p, mask, 0, k, id);
    PollBitsTurns(s1, env, p, mask, 0);
    DoomedLive(s, s2, p);
    ReapBitsLeaves(s2, p, InPage(s.dropped, p), 0);
  }

  /** The task can be followed through pages `p` to `n`. */
  lemma {:induction false} PagesDue(s: Sched, env: Oracle, p: nat, n: nat, k: nat, id: nat)
    requires p <= n && Inv(s) && Unpolled(s, p) && PollPages(s, env, p, n).legal
    requires Restless(env, id, k) && DueAgain(s, k, id) && k in Tasks(s) && Tasks(s)[k].id == id
    requires id in s.polled ==> k / PAGE < p
    requires id !in PollPages(s, env, p, n).reaped
    ensures DueAgain(PollPages(s, env, p, n), k, id)
    decreases n - p
  {
    hide Inv, Unpolled, PollPage, OwnHandled, OthersKept, DueAgain, Restless, Later;
    if p < n {
      var s1 := PollPage(s, env, p);
      OnePage(s, env, p, n);
      PageStep(s, env, p);
      PageDue(s, env, p, k, id);
      PollPagesKeeps(s1, env, p + 1, n);
      ReapedStays(s1, PollPages(s1, env, p + 1, n));
      StaysPolled(s, s1, p, k);
      hide PollPages;
      PagesDue(s1, env, p + 1, n, k, id);
    }
  }

  lemma ReapedStays(s: Sched, s': Sched)
    requires Later(s, s')
    ensures s.reaped <= s'.reaped
  {
  }

  lemma StaysPolled(s: Sched, s1: Sched, p: nat, k: nat)
    requires k in Tasks(s) && Later(s, s1) && OthersKept(s, s1, p) && Inv(s1)
    requires Tasks(s)[k].id in s.polled ==> k / PAGE < p
    ensures Tasks(s)[k].id !in s1.reaped ==> SameTask(s, s1, k)
    ensures Tasks(s)[k].id in s1.polled ==> k / PAGE < p + 1
  {
  }

  /** A task that wakes itself whenever it is polled is notified again after every call that polls it. */
  lemma SelfWakeSurvives(s: Sched, env: Oracle, k: nat)
    requires Inv(s) && Heard(s, {}) && Poll(s, env).legal && k in Tasks(s) && k !in s.dropped
    requires Restless(env, Tasks(s)[k].id, k)
    requires var s' := Poll(s, env); Tasks(s)[k].id in s'.polled && Tasks(s)[k].id !in s'.cancelled
    ensures SameTask(s, Poll(s, env), k)
    ensures !Tasks(Poll(s, env))[k].done ==> k in Poll(s, env).notified
  {
    var id := Tasks(s)[k].id;
    BeginKeeps(s);
    OthersStay(s, env, k);
    PollSafe(s, env);
    LiveNotReaped(Poll(s, env));
    assert id in Ids(Poll(s, env));
    PagesDue(Begin(s), env, 0, s.pages, k, id);
    if !Tasks(Poll(s, env))[k].done {
      DueIsNotified(s, env, k);
    }
  }

  // -------------------------------------------------------------------------------------
  // Every run
  // -------------------------------------------------------------------------------------

  lemma EffectHears(s: Sched, e: Effect)
    requires Inv(s) && Heard(s, {}) && Perform(s, e).legal
    ensures Heard(Perform(s, e), {})
  {
    var s0 := s.(dropped := Tasks(s).Keys);
    forall k | k in Tasks(s)
      ensures BookedAt(s0, s, k)
    {
      assert WasDropped(s0, s, k);
    }
    PerformAttends(s0, s, e, {});
  }

  lemma TakeHears(s: Sched, key: nat)
    requires Inv(s) && Heard(s, {}) && key in Tasks(s) && key !in s.dropped
    ensures Heard(Take(s, key), {})
  {
    TakeKeeps(s, key);
    var s' := Take(s, key);
    forall k | k in Tasks(s')
      ensures HeardAt(s', k)
    {
      assert HeardAt(s, k);
    }
  }

  /** Every action of a client keeps every wake-up. */
  lemma DoHears(s: Sched, env: Oracle, a: Action)
    requires Inv(s) && Heard(s, {}) && Do(s, env, a).legal
    ensures Heard(Do(s, env, a), {})
  {
    match a
    case Act(e) => EffectHears(s, e);
    case PollOnce => PollAttends(s, env);
    case TakeOut(key) =>
      GetIsLookup(s.slab, key);
      if key in Tasks(s) {
        assert s.(legal := s.legal && key !in s.dropped) == s;
        TakeHears(s, key);
      }
  }

  /** In every legal run, whoever is due carries the notified flag, unless completed or dropped. */
  lemma {:induction false} EveryWakeUpCounts(env: Oracle, acts: seq<Action>)
    requires SchedulerCall.Run(env, acts).legal
    ensures Inv(SchedulerCall.Run(env, acts)) && Heard(SchedulerCall.Run(env, acts), {})
    decreases |acts|
  {
    SchedulerCall.EveryRun(env, acts);
    if acts != [] {
      var init := acts[..|acts| - 1];
      EveryWakeUpCounts(env, init);
      hide Inv, Heard;
      DoHears(SchedulerCall.Run(env, init), env, acts[|acts| - 1]);
    }
  }

  // -------------------------------------------------------------------------------------
  // The flags themselves
  // -------------------------------------------------------------------------------------

  /** Waking a live task sets its notified flag and makes it due; nobody else's flags change. */
  lemma WakeSetsFlag(s: Sched, k: nat)
    requires Inv(s) && k in Tasks(s)
    ensures var s' := WakeUp(s, k);
      && s'.legal == s.legal && s'.notified == s.notified + {k} && Tasks(s)[k].id in s'.due
      && s'.completed == s.completed && s'.dropped == s.dropped && Tasks(s') == Tasks(s)
      && forall id :: id != Tasks(s)[k].id ==> (id in s'.due <==> id in s.due)
  {
    GetIsLookup(s.slab, k);
    assert TaskOk(s, k);
  }

  /** Dropping the handle of a live background task sets its dropped flag, and nothing else changes. */
  lemma DropSetsFlag(s: Sched, k: nat)
    requires Inv(s) && k in Tasks(s) && Tasks(s)[k].kind.Background?
    ensures var s' := DropHandle(s, k);
      && s'.legal == s.legal && s'.dropped == s.dropped + {k} && Tasks(s)[k].id in s'.cancelled
      && s'.completed == s.completed && s'.notified == s.notified && Tasks(s') == Tasks(s) && s'.due == s.due
  {
    GetIsLookup(s.slab, k);
    assert TaskOk(s, k);
  }
}
