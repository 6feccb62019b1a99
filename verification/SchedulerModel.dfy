/**
 The scheduler as a value. A task's three flags (notified, completed, dropped) live in
 64-bit pages; here each flag is the set of keys that carry it, and `pages` counts the
 pages. What a polled future does is asked of an oracle, so a statement about every oracle
 is a statement about every behaviour of the futures.
 */
module SchedulerModel {
  import opened Options
  import opened KeySpace
  import opened SlabModel

  const PAGE: nat := 64

  /** Operations are owned by a raw token, background tasks by a `SchedulerHandle`. */
  datatype Kind = Operation | Background

  /** `id` tells apart the tasks that come to share a key; `done` is `FutureResult::done`. */
  datatype Task = Task(id: nat, kind: Kind, done: bool)

  /** What running code may do to the scheduler while it is not borrowed. */
  datatype Effect =
    | Spawn(kind: Kind)
    | Wake(key: nat)
    | Cancel(key: nat) // a SchedulerHandle with this key is dropped

  datatype Response = Response(effects: seq<Effect>, ready: bool)

  /** Given the number of polls so far and the task polled: what its future does. */
  type Oracle = (nat, nat) -> Response

  /**
   The fields from `legal` on are bookkeeping. `legal` stays true as long as every wake-up
   names a live task and every cancellation a live background task; `issued` are the keys ever
   given out; `due` are the ids of the tasks that were created or woken and have not been polled
   since, unless their dropped flag was taken meanwhile. The rest is about the current call of
   `Poll`: the ids of the tasks polled, woken, cancelled and reaped in it, and whether any of them
   was polled a second time.
   */
  datatype Sched = Sched(
    slab: Slab<Task>,
    pages: nat,
    notified: set<nat>,
    completed: set<nat>,
    dropped: set<nat>,
    polls: nat,
    spawned: nat,
    panicked: bool,
    legal: bool,
    issued: set<nat>,
    due: set<nat>,
    polled: set<nat>,
    repolled: bool,
    woken: set<nat>,
    cancelled: set<nat>,
    reaped: set<nat>)

  const INITIAL: Sched := Sched(Empty(), 0, {}, {}, {}, 0, 0, false, true, {}, {}, {}, false, {}, {}, {})

  ghost function Tasks(s: Sched): (m: map<nat, Task>) {
    Contents(s.slab)
  }

  // -------------------------------------------------------------------------------------
  // Operations
  // -------------------------------------------------------------------------------------

  datatype Issued = Issued(s: Sched, key: Option<nat>)

  /** `Inner::insert`: a slab entry, enough pages for its key, and its flags initialised. */
  function Insert(s: Sched, kind: Kind): (r: Issued)
    ensures r.s.legal == s.legal && r.s.polled == s.polled
  {
    match SlabModel.Insert(s.slab, Task(s.spawned, kind, false))
    case Inserted(slab, key) =>
      Issued(s.(slab := slab,
                pages := if key < PAGE * s.pages then s.pages else key / PAGE + 1,
                notified := s.notified + {key},
                completed := s.completed - {key},
                dropped := s.dropped - {key},
                spawned := s.spawned + 1,
                issued := s.issued + {key},
                due := s.due + {s.spawned}),
             Some(key))
    case Refused => Issued(s, None)
    case Unreachable => Issued(s.(panicked := true), None)
  }

  /** A waker is invoked: the notified bit of its key is set. */
  function WakeUp(s: Sched, key: nat): (r: Sched) {
    var t := Get(s.slab, key);
    if key < PAGE * s.pages then
      s.(notified := s.notified + {key},
         legal := s.legal && t.Some?,
         woken := if t.Some? then s.woken + {t.value.id} else s.woken,
         due := if t.Some? then s.due + {t.value.id} else s.due)
    else s.(legal := false)
  }

  /** A handle that still holds its key is dropped: the dropped bit of its key is set. */
  function DropHandle(s: Sched, key: nat): (r: Sched) {
    var t := Get(s.slab, key);
    if key < PAGE * s.pages then
      s.(dropped := s.dropped + {key},
         legal := s.legal && t.Some? && t.value.kind.Background?,
         cancelled := if t.Some? then s.cancelled + {t.value.id} else s.cancelled)
    else s.(legal := false)
  }

  /** A `SchedulerHandle`: it owns a key, unless the key has been taken out of it. */
  datatype Handle = Handle(key: Option<nat>)

  /** `from_raw_handle`. */
  function HandleOf(s: Sched, key: nat): (h: Option<Handle>) {
    if Get(s.slab, key).Some? then Some(Handle(Some(key))) else None
  }

  /** `take_key`, as far as the handle is concerned. */
  function KeyTaken(h: Handle): (r: Handle) {
    h.(key := None)
  }

  /** A handle's destructor, which runs wherever a handle goes out of scope. */
  function Destroy(s: Sched, h: Handle): (r: Sched) {
    if h.key.None? then s else DropHandle(s, h.key.value)
  }

  function Perform(s: Sched, e: Effect): (r: Sched)
    ensures r.legal ==> s.legal
  {
    match e
    case Spawn(kind) => Insert(s, kind).s
    case Wake(key) => WakeUp(s, key)
    case Cancel(key) => Destroy(s, Handle(Some(key)))
  }

  function PerformAll(s: Sched, es: seq<Effect>): (r: Sched)
    ensures r.legal ==> s.legal
    decreases |es|
  {
    if es == [] then s else PerformAll(Perform(s, es[0]), es[1..])
  }

  /** The future returned Ready: its result is stored and its completed bit set. */
  function Complete(s: Sched, key: nat): (r: Sched) {
    if Get(s.slab, key).Some? then
      s.(slab := SlabModel.Update(s.slab, key, Get(s.slab, key).value.(done := true)),
         completed := s.completed + {key})
    else s.(completed := s.completed + {key})
  }

  /** Book one poll of a task. */
  function Charge(s: Sched, id: nat): (r: Sched) {
    s.(polls := s.polls + 1, polled := s.polled + {id}, repolled := s.repolled || id in s.polled, due := s.due - {id})
  }

  /**
   One future is polled. The slab lookup is unwrapped, and a future that already completed
   panics when polled again.
   */
  function PollTask(s: Sched, env: Oracle, key: nat): (r: Sched)
    ensures r.legal ==> s.legal
  {
    var t := Get(s.slab, key);
    if t.None? || t.value.done then s.(panicked := true)
    else
      var resp := env(s.polls, t.value.id);
      var s' := PerformAll(Charge(s, t.value.id), resp.effects);
      if resp.ready then Complete(s', key) else s'
  }

  /** The keys of a page. */
  function InPage(ks: set<nat>, p: nat): (r: set<nat>) {
    set k | k in ks && k / PAGE == p
  }

  /** `take_notified`: the notified tasks of the page, neither completed nor dropped. */
  function Snapshot(s: Sched, p: nat): (r: set<nat>) {
    InPage(s.notified, p) - s.completed - s.dropped
  }

  /** The ids of the tasks of a page that are flagged dropped. */
  function DroppedIds(s: Sched, p: nat): (r: set<nat>) {
    set k | k in InPage(s.dropped, p) && Get(s.slab, k).Some? :: Get(s.slab, k).value.id
  }

  /** Both flags the snapshot was made from are cleared. */
  function TakePage(s: Sched, p: nat): (r: Sched) {
    s.(notified := s.notified - InPage(s.notified, p), dropped := s.dropped - InPage(s.dropped, p),
       due := s.due - DroppedIds(s, p))
  }

  /** One bit of the snapshot. */
  function PollBit(s: Sched, env: Oracle, p: nat, mask: set<nat>, i: nat): (r: Sched)
    ensures r.legal ==> s.legal
  {
    if PAGE * p + i in mask then PollTask(s, env, PAGE * p + i) else s
  }

  /** The loop over the notified bits, lowest first. */
  function PollBits(s: Sched, env: Oracle, p: nat, mask: set<nat>, i: nat): (r: Sched)
    requires i <= PAGE
    ensures r.legal ==> s.legal
    decreases PAGE - i, p
  {
    if i == PAGE || s.panicked then s
    else PollBits(PollBit(s, env, p, mask, i), env, p, mask, i + 1)
  }

  /** A dropped task leaves the slab and its flags are cleared. */
  function Reap(s: Sched, key: nat): (r: Sched) {
    var gone := SlabModel.Remove(s.slab, key);
    s.(slab := gone.slab,
       notified := s.notified - {key},
       completed := s.completed - {key},
       dropped := s.dropped - {key},
       reaped := if gone.removed.Some? then s.reaped + {gone.removed.value.id} else s.reaped)
  }

  /** One dropped bit. Bit 0 of the page is skipped. */
  function ReapBit(s: Sched, p: nat, mask: set<nat>, i: nat): (r: Sched)
    ensures r.legal == s.legal
  {
    if PAGE * p + i in mask && i != 0 then Reap(s, PAGE * p + i) else s
  }

  /** The loop over the dropped bits. */
  function ReapBits(s: Sched, p: nat, mask: set<nat>, i: nat): (r: Sched)
    requires i <= PAGE
    ensures r.legal == s.legal
    decreases PAGE - i, p
  {
    if i == PAGE then s else ReapBits(ReapBit(s, p, mask, i), p, mask, i + 1)
  }

  function PollPage(s: Sched, env: Oracle, p: nat): (r: Sched)
    ensures r.legal ==> s.legal
  {
    var s' := PollBits(TakePage(s, p), env, p, Snapshot(s, p), 0);
    if s'.panicked then s' else ReapBits(s', p, InPage(s.dropped, p), 0)
  }

  function PollPages(s: Sched, env: Oracle, p: nat, n: nat): (r: Sched)
    requires p <= n
    ensures r.legal ==> s.legal
    decreases n - p
  {
    if p == n || s.panicked then s else PollPages(PollPage(s, env, p), env, p + 1, n)
  }

  function Begin(s: Sched): (r: Sched) {
    s.(polled := {}, repolled := false, woken := {}, cancelled := {}, reaped := {})
  }

  /** `Scheduler::poll`. Pages added while it runs are left for the next call. */
  function Poll(s: Sched, env: Oracle): (r: Sched)
    ensures r.legal ==> s.legal
  {
    PollPages(Begin(s), env, 0, s.pages)
  }

  /** `Scheduler::take`: panics unless the task is there and was not dropped. */
  function Take(s: Sched, key: nat): (r: Sched)
    ensures r.legal == s.legal
  {
    var gone := SlabModel.Remove(s.slab, key);
    if key >= PAGE * s.pages || key in s.dropped || gone.removed.None? then s.(panicked := true)
    else
      s.(slab := gone.slab, notified := s.notified - {key}, completed := s.completed - {key})
  }

  // -------------------------------------------------------------------------------------
  // What every step keeps
  // -------------------------------------------------------------------------------------

  ghost predicate TaskOk(s: Sched, k: nat)
    requires k in Tasks(s)
  {
    && k < PAGE * s.pages
    && k in s.issued
    && Tasks(s)[k].id < s.spawned
    && Tasks(s)[k].id !in s.reaped
    && (Tasks(s)[k].id in s.cancelled ==> Tasks(s)[k].kind.Background?)
    && (k in s.completed <==> Tasks(s)[k].done)
    && (k in s.dropped ==> Tasks(s)[k].kind.Background?)
  }

  ghost predicate Inv(s: Sched) {
    && Good(s.slab)
    && !s.panicked
    && (forall k :: k in s.issued ==> k < PAGE * s.pages)
    && (forall id :: id in s.polled || id in s.reaped || id in s.cancelled ==> id < s.spawned)
    && s.notified <= Tasks(s).Keys
    && s.completed <= Tasks(s).Keys
    && s.dropped <= Tasks(s).Keys
    && (forall k :: k in Tasks(s) ==> TaskOk(s, k))
    && (forall k, k' :: k in Tasks(s) && k' in Tasks(s) && k != k' ==> Tasks(s)[k].id != Tasks(s)[k'].id)
  }

  ghost function IdsOf(m: map<nat, Task>): (r: set<nat>) {
    set k | k in m :: m[k].id
  }

  ghost function Ids(s: Sched): (r: set<nat>) {
    IdsOf(Tasks(s))
  }

  lemma IdsOfAdd(m: map<nat, Task>, k: nat, t: Task)
    requires k !in m
    ensures IdsOf(m[k := t]) == IdsOf(m) + {t.id}
  {
    var m' := m[k := t];
    assert m'[k] == t;
    forall j | j in m
      ensures m[j].id in IdsOf(m')
    {
      assert m'[j] == m[j];
    }
  }

  /** The tasks created between two moments. */
  ghost function Created(s: Sched, s': Sched): (r: set<nat>) {
    Below(s'.spawned) - Below(s.spawned)
  }

  ghost predicate SameTask(s: Sched, s': Sched, k: nat)
    requires k in Tasks(s)
  {
    k in Tasks(s') && Tasks(s')[k].id == Tasks(s)[k].id && Tasks(s')[k].kind == Tasks(s)[k].kind
  }

  /** Whoever carries the dropped flag carried it before, or was cancelled meanwhile. */
  ghost predicate DropsExplained(s: Sched, s': Sched) {
    forall k :: k in s'.dropped && k in Tasks(s') ==>
      Tasks(s')[k].id in s'.cancelled || (k in s.dropped && k in Tasks(s) && SameTask(s, s', k))
  }

  /** Whoever carries the notified flag carried it before, was woken meanwhile or is new. */
  ghost predicate WakesExplained(s: Sched, s': Sched) {
    forall k :: k in s'.notified && k in Tasks(s') ==>
      || Tasks(s')[k].id in s'.woken
      || s.spawned <= Tasks(s')[k].id
      || (k in s.notified && k in Tasks(s) && SameTask(s, s', k))
  }

  /** Futures ran but nothing was reaped: nobody left, who came is new, flags only grew. */
  ghost predicate Grows(s: Sched, s': Sched) {
    && s.pages <= s'.pages
    && s.issued <= s'.issued
    && s.spawned <= s'.spawned
    && s.woken <= s'.woken
    && s.cancelled <= s'.cancelled
    && s.reaped == s'.reaped
    && s.completed <= s'.completed
    && s.notified <= s'.notified
    && s.dropped <= s'.dropped
    && (forall k :: k in Tasks(s) ==> SameTask(s, s', k))
    && (forall k :: k in Tasks(s') && k !in Tasks(s) ==> s.spawned <= Tasks(s')[k].id)
    && Ids(s') == Ids(s) + Created(s, s')
    && DropsExplained(s, s')
    && WakesExplained(s, s')
  }

  lemma GrowsTransitive(a: Sched, b: Sched, c: Sched)
    requires Grows(a, b) && Grows(b, c)
    ensures Grows(a, c)
  {
  }

  /** Every task keeps its `done` flag. */
  ghost predicate SameDone(s: Sched, s': Sched)
    requires Grows(s, s')
  {
    && s'.completed == s.completed
    && s'.polled == s.polled
    && s'.repolled == s.repolled
    && forall k :: k in Tasks(s) ==> Tasks(s')[k].done == Tasks(s)[k].done
  }

  /** A new task, notified and without other flags, at a key nobody held. */
  ghost predicate Born(s: Sched, s': Sched, key: nat, kind: Kind) {
    && key !in Tasks(s)
    && Good(s'.slab)
    && Tasks(s') == Tasks(s)[key := Task(s.spawned, kind, false)]
    && key < PAGE * s'.pages
    && s.pages <= s'.pages
    && s' == s.(slab := s'.slab, pages := s'.pages, spawned := s.spawned + 1, issued := s.issued + {key},
                due := s.due + {s.spawned},
                notified := s.notified + {key}, completed := s.completed - {key}, dropped := s.dropped - {key})
  }

  /** `insert` either adds one task under a fresh key or, with all keys taken, does nothing. */
  lemma InsertBears(s: Sched, kind: Kind)
    requires Inv(s)
    ensures var r := Insert(s, kind);
      if r.key.Some? then Born(s, r.s, r.key.value, kind) else r.s == s && |Tasks(s)| == KEY_LIMIT
  {
    InsertRefinesMap(s.slab, Task(s.spawned, kind, false));
  }

  lemma BornIds(s: Sched, s': Sched, key: nat, kind: Kind)
    requires Born(s, s', key, kind)
    ensures Ids(s') == Ids(s) + Created(s, s')
  {
    IdsOfAdd(Tasks(s), key, Task(s.spawned, kind, false));
    assert Created(s, s') == {s.spawned};
  }

  lemma BornInv(s: Sched, s': Sched, key: nat, kind: Kind)
    requires Inv(s) && Born(s, s', key, kind)
    ensures Inv(s')
  {
    forall k | k in Tasks(s')
      ensures TaskOk(s', k)
    {
      assert k != key ==> TaskOk(s, k);
    }
  }

  lemma BornGrows(s: Sched, s': Sched, key: nat, kind: Kind)
    requires Inv(s) && Born(s, s', key, kind)
    ensures Grows(s, s') && SameDone(s, s')
    ensures s'.dropped == s.dropped
  {
    assert s'.completed == s.completed && s'.dropped == s.dropped;
    BornIds(s, s', key, kind);
  }

  lemma InsertKeeps(s: Sched, kind: Kind)
    requires Inv(s)
    ensures var r := Insert(s, kind);
      && Inv(r.s) && Grows(s, r.s) && SameDone(s, r.s) && r.s.dropped == s.dropped
  {
    InsertBears(s, kind);
    var r := Insert(s, kind);
    if r.key.Some? {
      BornInv(s, r.s, r.key.value, kind);
      BornGrows(s, r.s, r.key.value, kind);
    }
  }

  lemma WakeKeeps(s: Sched, key: nat)
    requires Inv(s) && WakeUp(s, key).legal
    ensures Inv(WakeUp(s, key)) && Grows(s, WakeUp(s, key)) && SameDone(s, WakeUp(s, key))
    ensures key in Tasks(s)
  {
    GetIsLookup(s.slab, key);
  }

  lemma DropKeeps(s: Sched, key: nat)
    requires Inv(s) && DropHandle(s, key).legal
    ensures Inv(DropHandle(s, key)) && Grows(s, DropHandle(s, key)) && SameDone(s, DropHandle(s, key))
    ensures key in Tasks(s) && Tasks(s)[key].kind.Background?
  {
    GetIsLookup(s.slab, key);
  }

  lemma PerformKeeps(s: Sched, e: Effect)
    requires Inv(s) && Perform(s, e).legal
    ensures Inv(Perform(s, e)) && Grows(s, Perform(s, e)) && SameDone(s, Perform(s, e))
  {
    match e
    case Spawn(kind) => InsertKeeps(s, kind);
    case Wake(key) => WakeKeeps(s, key);
    case Cancel(key) => DropKeeps(s, key);
  }

  lemma {:induction false} PerformAllKeeps(s: Sched, es: seq<Effect>)
    requires Inv(s) && PerformAll(s, es).legal
    ensures Inv(PerformAll(s, es)) && Grows(s, PerformAll(s, es)) && SameDone(s, PerformAll(s, es))
    decreases |es|
  {
    if es != [] {
      var s' := Perform(s, es[0]);
      PerformKeeps(s, es[0]);
      PerformAllKeeps(s', es[1..]);
      GrowsTransitive(s, s', PerformAll(s', es[1..]));
    }
  }
}
