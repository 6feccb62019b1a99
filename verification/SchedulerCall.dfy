/** Whole calls of `Scheduler::poll`, and whole runs of the scheduler. */
module SchedulerCall {
  import opened Options
  import opened SlabModel
  import opened SchedulerModel
  import opened SchedulerPass
  import opened SchedulerPage

  lemma {:induction false} PollPagesKeeps(s: Sched, env: Oracle, p: nat, n: nat)
    requires p <= n && Inv(s) && Unpolled(s, p) && PollPages(s, env, p, n).legal
    ensures var s' := PollPages(s, env, p, n);
      Inv(s') && Unpolled(s', n) && Later(s, s')
    decreases n - p
  {
    if p < n {
      var s1 := PollPage(s, env, p);
      PageStep(s, env, p);
      PollPagesKeeps(s1, env, p + 1, n);
      LaterTransitive(s, s1, PollPages(s1, env, p + 1, n));
    }
  }

  lemma BeginKeeps(s: Sched)
    requires Inv(s)
    ensures Inv(Begin(s)) && Unpolled(Begin(s), 0)
  {
    forall k | k in Tasks(s)
      ensures TaskOk(Begin(s), k)
    {
      assert TaskOk(s, k);
    }
  }

  /**
   One call of `poll` from a sound state, whatever the futures do as long as they wake and
   cancel only tasks that are there: the lookup never fails, no completed future is polled
   again, no task is polled twice, and tasks are conserved.
   */
  lemma PollSafe(s: Sched, env: Oracle)
    requires Inv(s) && Poll(s, env).legal
    ensures Inv(Poll(s, env)) && !Poll(s, env).repolled
    ensures Ids(Poll(s, env)) + Poll(s, env).reaped == Ids(s) + Created(s, Poll(s, env))
    ensures Ids(Poll(s, env)) !! Poll(s, env).reaped
  {
    BeginKeeps(s);
    PollPagesKeeps(Begin(s), env, 0, s.pages);
    LiveNotReaped(Poll(s, env));
  }

  lemma LiveNotReaped(s: Sched)
    requires Inv(s)
    ensures Ids(s) !! s.reaped
  {
    forall k | k in Tasks(s)
      ensures Tasks(s)[k].id !in s.reaped
    {
      assert TaskOk(s, k);
    }
  }

  // -------------------------------------------------------------------------------------
  // Following one task through a call
  // -------------------------------------------------------------------------------------

  /** Pages that are not the task's own leave it alone, save for wake-ups and cancellation. */
  ghost predicate Untouched(s: Sched, s': Sched, k: nat)
    requires k in Tasks(s)
  {
    && SameTask(s, s', k)
    && Tasks(s')[k].done == Tasks(s)[k].done
    && (k in s.notified ==> k in s'.notified)
    && (k in s.dropped ==> k in s'.dropped)
    && (Tasks(s)[k].id in s'.polled ==> Tasks(s)[k].id in s.polled)
  }

  lemma {:induction false} Skips(s: Sched, env: Oracle, p: nat, n: nat, k: nat, q: nat) returns (s': Sched)
    requires p <= n && Inv(s) && Unpolled(s, p) && PollPages(s, env, p, n).legal
    requires k in Tasks(s) && q == k / PAGE && (q < p || n <= q)
    ensures s' == PollPages(s, env, p, n)
    ensures Untouched(s, s', k)
    decreases n - p
  {
    if p < n {
      var s1 := PollPage(s, env, p);
      PageSkips(s, env, p, k);
      s' := Skips(s1, env, p + 1, n, k, q);
      UntouchedTransitive(s, s1, s', k);
    } else {
      s' := s;
    }
  }

  lemma PageSkips(s: Sched, env: Oracle, p: nat, k: nat)
    requires Inv(s) && Unpolled(s, p) && PollPage(s, env, p).legal
    requires k in Tasks(s) && k / PAGE != p
    ensures Inv(PollPage(s, env, p)) && Unpolled(PollPage(s, env, p), p + 1)
    ensures Untouched(s, PollPage(s, env, p), k)
  {
    PageStep(s, env, p);
  }

  lemma UntouchedTransitive(a: Sched, b: Sched, c: Sched, k: nat)
    requires k in Tasks(a) && k in Tasks(b) && Untouched(a, b, k) && Untouched(b, c, k)
    ensures Untouched(a, c, k)
  {
  }

  lemma {:induction false} PagesCompose(s: Sched, env: Oracle, p: nat, q: nat, n: nat)
    requires p <= q <= n
    ensures PollPages(s, env, p, n) == PollPages(PollPages(s, env, p, q), env, q, n)
    decreases q - p
  {
    if p < q && !s.panicked {
      PagesCompose(PollPage(s, env, p), env, p + 1, q, n);
    }
  }

  lemma OnePage(s: Sched, env: Oracle, q: nat, n: nat)
    requires Inv(s) && q < n && PollPages(s, env, q, n).legal
    ensures PollPages(s, env, q, n) == PollPages(PollPage(s, env, q), env, q + 1, n)
    ensures PollPage(s, env, q).legal
  {
    hide PollPage;
  }

  lemma LegalBefore(s: Sched, env: Oracle, q: nat, n: nat)
    requires q <= n && PollPages(s, env, q, n).legal
    ensures s.legal
  {
    hide PollPage;
  }

  /** The states just before and just after a task's own page. */
  lemma AtOwnPage(s: Sched, env: Oracle, k: nat) returns (a: Sched, b: Sched)
    requires Inv(s) && Poll(s, env).legal && k in Tasks(s)
    ensures Inv(a) && Later(Begin(s), a) && Untouched(Begin(s), a, k)
    ensures Inv(b) && OwnHandled(a, b, k / PAGE) && Later(a, b) && Later(b, Poll(s, env))
    ensures k in Tasks(b) ==> Untouched(b, Poll(s, env), k)
    ensures Inv(Poll(s, env))
  {
    var s0, q, n := Begin(s), k / PAGE, s.pages;
    BeginKeeps(s);
    assert TaskOk(s, k);
    hide Inv, Unpolled, Later, Untouched, OwnHandled, OthersKept, PollPage, PollPages;
    a := PollPages(s0, env, 0, q);
    PagesCompose(s0, env, 0, q, n);
    LegalBefore(a, env, q, n);
    PollPagesKeeps(s0, env, 0, q);
    var a' := Skips(s0, env, 0, q, k, q);
    b := PollPage(a, env, q);
    OnePage(a, env, q, n);
    PageStep(a, env, q);
    PollPagesKeeps(b, env, q + 1, n);
    if k in Tasks(b) {
      var b' := Skips(b, env, q + 1, n, k, q);
    }
  }

  /** A woken, unfinished, undropped task is polled in this call, or was cancelled in it. */
  lemma WokenIsPolled(s: Sched, env: Oracle, k: nat)
    requires Inv(s) && Poll(s, env).legal
    requires k in Tasks(s) && k in s.notified && k !in s.dropped && !Tasks(s)[k].done
    ensures Tasks(s)[k].id in Poll(s, env).polled || Tasks(s)[k].id in Poll(s, env).cancelled
  {
    var a, b := AtOwnPage(s, env, k);
  }

  /** Only woken, unfinished, undropped tasks are polled. */
  lemma PolledWasWoken(s: Sched, env: Oracle, k: nat)
    requires Inv(s) && Poll(s, env).legal && k in Tasks(s)
    requires Tasks(s)[k].id in Poll(s, env).polled
    ensures !Tasks(s)[k].done && k !in s.dropped
    ensures k in s.notified || Tasks(s)[k].id in Poll(s, env).woken
  {
    var a, b := AtOwnPage(s, env, k);
    var id, s' := Tasks(s)[k].id, Poll(s, env);
    assert TaskOk(s, k);
    LiveNotReaped(b);
    assert id in b.polled;
  }

  /**
   A task whose handle was dropped before the call leaves in this call if and only if it is
   not at bit 0 of its page.
   */
  lemma DroppedLeavesIff(s: Sched, env: Oracle, k: nat)
    requires Inv(s) && Poll(s, env).legal && k in Tasks(s) && k in s.dropped
    ensures k % PAGE != 0 <==> Tasks(s)[k].id in Poll(s, env).reaped
    ensures k % PAGE == 0 ==> SameTask(s, Poll(s, env), k) && Tasks(Poll(s, env))[k].done == Tasks(s)[k].done
    ensures k % PAGE == 0 && Tasks(s)[k].id !in Poll(s, env).cancelled ==> k !in Poll(s, env).dropped
  {
    var a, b := AtOwnPage(s, env, k);
    var s' := Poll(s, env);
    if k % PAGE == 0 {
      assert SameTask(s, s', k);
      assert TaskOk(s', k);
      assert TaskOk(b, k);
    }
  }

  /** Nobody leaves in place of another: only dropped or cancelled tasks are reaped. */
  lemma OthersStay(s: Sched, env: Oracle, k: nat)
    requires Inv(s) && Poll(s, env).legal && k in Tasks(s)
    requires k !in s.dropped && Tasks(s)[k].id !in Poll(s, env).cancelled
    ensures SameTask(s, Poll(s, env), k)
    ensures k !in Poll(s, env).dropped
  {
    BeginKeeps(s);
    PollPagesKeeps(Begin(s), env, 0, s.pages);
    NotDoomed(s, k);
  }

  lemma NotDoomed(s: Sched, k: nat)
    requires Inv(s) && k in Tasks(s) && k !in s.dropped
    ensures !DoomedId(Begin(s), Tasks(s)[k].id)
  {
    forall j | j in s.dropped && j in Tasks(s)
      ensures Tasks(s)[j].id != Tasks(s)[k].id
    {
      OtherId(s, j, k);
    }
  }

  /** A task created in the call leaves in it only if its own handle was dropped in it. */
  lemma NewcomersStay(s: Sched, env: Oracle, id: nat)
    requires Inv(s) && Poll(s, env).legal && id in Created(s, Poll(s, env))
    ensures id in Ids(Poll(s, env)) || id in Poll(s, env).cancelled
  {
    PollSafe(s, env);
    BeginKeeps(s);
    PollPagesKeeps(Begin(s), env, 0, s.pages);
    var s' := Poll(s, env);
    assert id in Ids(s') + s'.reaped;
    forall j | j in Tasks(s)
      ensures Tasks(s)[j].id != id
    {
      assert TaskOk(s, j);
    }
  }

  // -------------------------------------------------------------------------------------
  // Taking a task out
  // -------------------------------------------------------------------------------------

  /** An operation is never flagged dropped. */
  lemma OperationNotDropped(s: Sched, key: nat)
    requires Inv(s) && key in Tasks(s) && Tasks(s)[key].kind.Operation?
    ensures key !in s.dropped
  {
    assert TaskOk(s, key);
  }

  /** A live task that is not flagged dropped is taken out, with its flags, and nobody else is. */
  lemma TakeKeeps(s: Sched, key: nat)
    requires Inv(s) && key in Tasks(s) && key !in s.dropped
    ensures Inv(Take(s, key))
    ensures Tasks(Take(s, key)) == Tasks(s) - {key}
    ensures Take(s, key).completed == s.completed - {key}
    ensures Take(s, key).dropped == s.dropped
    ensures Take(s, key).notified == s.notified - {key}
  {
    RemoveRefinesMap(s.slab, key);
    assert TaskOk(s, key);
    var s' := Take(s, key);
    forall k | k in Tasks(s')
      ensures TaskOk(s', k)
    {
      assert TaskOk(s, k);
    }
  }

  // -------------------------------------------------------------------------------------
  // Every run
  // -------------------------------------------------------------------------------------

  /** What a client of the scheduler does between and around calls of `poll`. */
  datatype Action = Act(effect: Effect) | TakeOut(key: nat) | PollOnce

  function Do(s: Sched, env: Oracle, a: Action): (r: Sched)
    ensures r.legal ==> s.legal
  {
    match a
    case Act(e) => Perform(s, e)
    case PollOnce => Poll(s, env)
    case TakeOut(key) =>
      var t := Get(s.slab, key);
      if t.None? then s // from_raw_handle finds nothing
      else Take(s.(legal := s.legal && key !in s.dropped), key)
  }

  function Run(env: Oracle, acts: seq<Action>): (r: Sched) {
    if acts == [] then INITIAL else Do(Run(env, acts[..|acts| - 1]), env, acts[|acts| - 1])
  }

  lemma DoKeeps(s: Sched, env: Oracle, a: Action)
    requires Inv(s) && Do(s, env, a).legal
    ensures Inv(Do(s, env, a))
    ensures s.issued <= Do(s, env, a).issued && s.pages <= Do(s, env, a).pages
  {
    match a
    case Act(e) => PerformKeeps(s, e);
    case PollOnce =>
      BeginKeeps(s);
      PollPagesKeeps(Begin(s), env, 0, s.pages);
    case TakeOut(key) =>
      GetIsLookup(s.slab, key);
      if key in Tasks(s) {
        assert s.(legal := s.legal && key !in s.dropped) == s;
        TakeKeeps(s, key);
      }
  }

  /**
   Every run whose wake-ups name live tasks, whose cancellations name live background tasks and
   which takes out no dropped task is sound throughout: in particular it never panics, and every
   key it ever issued, still in use or not, is within the pages.
   */
  lemma {:induction false} EveryRun(env: Oracle, acts: seq<Action>)
    requires Run(env, acts).legal
    ensures Inv(Run(env, acts)) && !Run(env, acts).panicked
    ensures forall n, k :: 0 <= n <= |acts| && k in Run(env, acts[..n]).issued ==> k / PAGE < Run(env, acts).pages
    decreases |acts|
  {
    if acts == [] {
      EmptyIsGood<Task>();
    } else {
      var init := acts[..|acts| - 1];
      EveryRun(env, init);
      DoKeeps(Run(env, init), env, acts[|acts| - 1]);
      forall n, k | 0 <= n <= |acts| && k in Run(env, acts[..n]).issued
        ensures k / PAGE < Run(env, acts).pages
      {
        if n < |acts| {
          assert acts[..n] == init[..n];
        } else {
          assert acts[..n] == acts;
        }
      }
    }
  }

  // -------------------------------------------------------------------------------------
  // Two things the code does not promise
  // -------------------------------------------------------------------------------------

  /**
   "A task whose handle was dropped is never polled again" is false at bit 0 of a page: the
   task survives, loses its dropped flag, and the next wake-up has it polled.
   */
  lemma DroppedAtBitZeroIsPolledAgain(s: Sched, env: Oracle, k: nat)
    requires Inv(s) && k in Tasks(s) && k in s.dropped && k % PAGE == 0 && !Tasks(s)[k].done
    requires var s1 := Poll(s, env); var s2 := Poll(WakeUp(s1, k), env);
      s2.legal && Tasks(s)[k].id !in s1.cancelled && Tasks(s)[k].id !in s2.cancelled
    ensures Tasks(s)[k].id in Poll(WakeUp(Poll(s, env), k), env).polled
  {
    var s1 := Poll(s, env);
    assert WakeUp(s1, k).legal;
    PollSafe(s, env);
    DroppedLeavesIff(s, env, k);
    WakeKeeps(s1, k);
    WokenIsPolled(WakeUp(s1, k), env, k);
  }

  /** The first task of a scheduler. */
  lemma FirstInsert(s: Sched, kind: Kind)
    requires s == INITIAL
    ensures var r := SchedulerModel.Insert(s, kind);
      && r.key == Some(0) && Inv(r.s) && r.s.legal
      && r.s.notified == {0} && r.s.completed == {} && r.s.dropped == {}
      && Tasks(r.s) == map[0 := Task(0, kind, false)]
  {
    EmptyIsGood<Task>();
    assert Tasks(s) == map[] && Inv(s);
    InsertKeeps(s, kind);
    InsertBears(s, kind);
    hide Inv, Good, Grows, Tasks;
  }

  /** Such a state exists: the first task of a fresh scheduler gets key 0. */
  lemma FirstTaskIsAtBitZero()
    ensures var r := SchedulerModel.Insert(INITIAL, Background);
      && r.key == Some(0)
      && Inv(DropHandle(r.s, 0)) && DropHandle(r.s, 0).legal
      && 0 in DropHandle(r.s, 0).dropped
      && Tasks(DropHandle(r.s, 0)) == map[0 := Task(0, Background, false)]
  {
    FirstInsert(INITIAL, Background);
    hide SchedulerModel.Insert;
    var s := SchedulerModel.Insert(INITIAL, Background).s;
    GetIsLookup(s.slab, 0);
    assert TaskOk(s, 0);
    DropKeeps(s, 0);
  }

  lemma {:induction false} QuietBits(s: Sched, env: Oracle, p: nat, mask: set<nat>, i: nat, j: nat)
    requires i <= j <= PAGE
    requires forall k :: k in mask ==> k < PAGE * p + i || PAGE * p + j <= k
    ensures !s.panicked ==> PollBits(s, env, p, mask, i) == PollBits(s, env, p, mask, j)
    decreases j - i
  {
    if i < j {
      assert PAGE * p + i !in mask;
      QuietBits(s, env, p, mask, i + 1, j);
    }
  }

  lemma {:induction false} QuietReaps(s: Sched, p: nat, i: nat)
    requires i <= PAGE
    ensures ReapBits(s, p, {}, i) == s
    decreases PAGE - i
  {
    if i < PAGE {
      QuietReaps(s, p, i + 1);
    }
  }

  lemma QuietPage(s: Sched, env: Oracle, p: nat)
    requires !s.panicked && s.dropped == {} && InPage(s.notified, p) == {}
    ensures PollPage(s, env, p) == s
  {
    assert TakePage(s, p) == s;
    assert Snapshot(s, p) == {};
    QuietBits(s, env, p, {}, 0, PAGE);
    assert InPage(s.dropped, p) == {};
    QuietReaps(s, p, 0);
  }

  lemma {:induction false} QuietPages(s: Sched, env: Oracle, p: nat, q: nat)
    requires p <= q && !s.panicked && s.dropped == {}
    requires forall k :: k in s.notified ==> q <= k / PAGE
    ensures PollPages(s, env, p, q) == s
    decreases q - p
  {
    if p < q {
      assert InPage(s.notified, p) == {};
      QuietPage(s, env, p);
      QuietPages(s, env, p + 1, q);
    }
  }

  /** Nothing but one task asks for anything: the call comes to that task's page, and to its bit. */
  lemma OnlyOneNotified(s: Sched, env: Oracle, k: nat, q: nat, i: nat)
    requires !s.panicked && s.notified == {k} && s.dropped == {} && k !in s.completed
    requires q == k / PAGE && i == k % PAGE && q < s.pages
    ensures PollPages(s, env, 0, s.pages) == PollPages(PollPage(s, env, q), env, q + 1, s.pages)
    ensures PollBits(TakePage(s, q), env, q, Snapshot(s, q), 0) ==
      PollBits(PollTask(TakePage(s, q), env, k), env, q, {k}, i + 1)
    ensures Snapshot(s, q) == {k} && InPage(s.dropped, q) == {}
  {
    hide Take, SlabModel.Remove, PollTask;
    PagesCompose(s, env, 0, q, s.pages);
    QuietPages(s, env, 0, q);
    assert Snapshot(s, q) == {k};
    QuietBits(TakePage(s, q), env, q, {k}, 0, i);
    assert PAGE * q + i == k;
  }

  lemma UnfinishedFacts(s: Sched, k: nat)
    requires Inv(s) && k in Tasks(s) && !Tasks(s)[k].done
    ensures !s.panicked && k !in s.completed && k / PAGE < s.pages
  {
    assert TaskOk(s, k);
  }

  lemma OnlyOnePage(s: Sched, env: Oracle, k: nat, id: nat, q: nat)
    requires Inv(s) && k in Tasks(s) && id == Tasks(s)[k].id && !Tasks(s)[k].done && q == k / PAGE
    requires s.notified == {k} && s.dropped == {} && env(s.polls, id).effects == []
    ensures var s' := PollPage(s, env, q);
      && s' == PollTask(TakePage(s, q), env, k)
      && !s'.panicked && s'.notified == {} && s'.dropped == {} && s'.pages == s.pages
  {
    assert TaskOk(s, k);
    OnlyOneNotified(s, env, k, q, k % PAGE);
    var s1 := TakePage(s, q);
    assert s1.notified == {};
    QuietTask(s1, env, k, id);
    var s2 := PollTask(s1, env, k);
    hide PollTask, Inv, Good, TaskOk, PollPages;
    QuietBits(s2, env, q, {k}, k % PAGE + 1, PAGE);
    QuietReaps(s2, q, 0);
  }

  /** If its future has no effects, that is all the call does. */
  lemma OnlyOnePolled(s: Sched, env: Oracle, k: nat, id: nat)
    requires Inv(s) && k in Tasks(s) && id == Tasks(s)[k].id && !Tasks(s)[k].done
    requires s.notified == {k} && s.dropped == {} && env(s.polls, id).effects == []
    ensures Poll(s, env) == PollTask(TakePage(Begin(s), k / PAGE), env, k)
  {
    hide PollTask, Inv, Good, PollPage, PollPages, PollBits, Snapshot, InPage, TakePage, Unpolled;
    var s0, q := Begin(s), k / PAGE;
    BeginKeeps(s);
    UnfinishedFacts(s, k);
    OnlyOneNotified(s0, env, k, q, k % PAGE);
    OnlyOnePage(s0, env, k, id, q);
    QuietPages(PollPage(s0, env, q), env, q + 1, s.pages);
  }

  lemma QuietTask(s: Sched, env: Oracle, k: nat, id: nat)
    requires !s.panicked && Good(s.slab) && k in Tasks(s) && id == Tasks(s)[k].id && !Tasks(s)[k].done
    requires s.notified == {} && s.dropped == {} && env(s.polls, id).effects == []
    ensures var s' := PollTask(s, env, k);
      && !s'.panicked && s'.notified == {} && s'.dropped == {} && s'.pages == s.pages
      && s'.legal == s.legal && s'.cancelled == s.cancelled
  {
    GetIsLookup(s.slab, k);
  }

  /**
   The assumption on wake-ups is needed: in a quiet scheduler, waking a key that holds no
   task makes the next call of `poll` fail its lookup.
   */
  lemma StaleWakePanics(s: Sched, env: Oracle, k: nat)
    requires Inv(s) && s.notified == {} && s.dropped == {}
    requires k !in Tasks(s) && k < PAGE * s.pages
    ensures Poll(WakeUp(s, k), env).panicked
  {
    GetIsLookup(s.slab, k);
    var s0, q := Begin(WakeUp(s, k)), k / PAGE;
    OnlyOneNotified(s0, env, k, q, k % PAGE);
    assert PollTask(TakePage(s0, q), env, k).panicked;
    hide PollTask;
    assert PollPage(s0, env, q).panicked;
  }
}
