/**
 The timer as a value. Instants are integers. A wait future is named by a number; its heap
 node, which the source embeds in the future itself, carries that number.
 */
module TimerModel {
  import opened Options
  import opened PairingHeap

  datatype PollState = Unregistered | Registered | Expired

  /** `taken`: the future has returned Ready, and given up its pointer to the timer. */
  datatype Wait = Wait(expiry: int, task: Option<nat>, state: PollState, taken: bool)

  datatype Timer = Timer(now: int, heap: Nodes, futures: map<nat, Wait>, created: nat)

  datatype Answer = Pending | Ready | Panic

  datatype Polled = Polled(t: Timer, answer: Answer)

  // -------------------------------------------------------------------------------------
  // Operations
  // -------------------------------------------------------------------------------------

  function New(now: int): (t: Timer) {
    Timer(now, Nil, map[], 0)
  }

  /** `wait_until`: the new future is number `t.created`. */
  function WaitUntil(t: Timer, expiry: int): (r: Timer) {
    t.(futures := t.futures[t.created := Wait(expiry, None, Unregistered, false)], created := t.created + 1)
  }

  /** `wait`. */
  function WaitFor(t: Timer, timeout: nat): (r: Timer) {
    WaitUntil(t, t.now + timeout)
  }

  function Set(t: Timer, id: nat, w: Wait): (r: Timer) {
    t.(futures := t.futures[id := w])
  }

  /** `WaitFuture::poll` with a waker; polling after completion panics. */
  function PollWait(t: Timer, id: nat, waker: nat): (r: Polled)
    requires id in t.futures
  {
    var w := t.futures[id];
    if w.taken then Polled(t, Panic)
    else match w.state
      case Unregistered =>
        if t.now >= w.expiry then Polled(Set(t, id, w.(state := Expired, taken := true)), Ready)
        else Polled(Set(t, id, w.(task := Some(waker), state := Registered))
                      .(heap := Insert(t.heap, Entry(id, w.expiry))),
                    Pending)
      case Registered => Polled(Set(t, id, w.(task := Some(waker))), Pending)
      case Expired => Polled(Set(t, id, w.(taken := true)), Ready)
  }

  /** `WaitFuture::drop`. */
  function DropWait(t: Timer, id: nat): (r: Timer)
    requires id in t.futures
  {
    var w := t.futures[id];
    t.(futures := t.futures - {id},
       heap := if !w.taken && w.state.Registered? then Remove(t.heap, id) else t.heap)
  }

  /** What advancing the clock did: which futures fired, in order, and which wakers it invoked. */
  datatype Drained = Drained(t: Timer, fired: seq<nat>, woken: seq<nat>)

  function Expire(t: Timer, id: nat): (r: Timer) {
    var r := t.(heap := Remove(t.heap, id));
    if id in t.futures then Set(r, id, t.futures[id].(state := Expired, task := None)) else r
  }

  /** The waker of a future, if it has one. */
  function WakerOf(t: Timer, id: nat): (s: seq<nat>) {
    if id in t.futures then ToSeq(t.futures[id].task) else []
  }

  /** The loop of `advance_clock`: fire the root until it is in the future. */
  function Drain(t: Timer, now: int): (r: Drained)
    decreases Size(t.heap)
  {
    if t.heap.Nil? || now < t.heap.entry.expiry then Drained(t, [], [])
    else
      var id := t.heap.entry.id;
      MergeSize(t.heap.child);
      var r := Drain(Expire(t, id), now);
      Drained(r.t, [id] + r.fired, WakerOf(t, id) + r.woken)
  }

  /** `advance_clock`, once it has asserted that time does not go backwards. */
  function Advance(t: Timer, now: int): (r: Drained) {
    var r := Drain(t, now);
    r.(t := r.t.(now := now))
  }

  // -------------------------------------------------------------------------------------
  // The invariant
  // -------------------------------------------------------------------------------------

  /** The heap holds exactly the registered futures, under their own expiry. */
  ghost predicate Queued(t: Timer) {
    && Heap(t.heap)
    && (forall e :: e in Entries(t.heap) ==>
          e.id in t.futures && t.futures[e.id].state.Registered? && t.futures[e.id].expiry == e.expiry)
    && (forall id :: id in t.futures && t.futures[id].state.Registered? ==>
          Entry(id, t.futures[id].expiry) in Entries(t.heap))
  }

  /** A future is in a state that agrees with the clock; `late` is ahead of it during a drain. */
  ghost predicate Timely(w: Wait, now: int, late: int) {
    && (w.state.Registered? ==> now < w.expiry && w.task.Some?)
    && (w.state.Expired? ==> w.expiry <= late)
    && (w.taken ==> w.state.Expired?)
  }

  ghost predicate Sound(t: Timer, late: int) {
    && Queued(t)
    && (forall id :: id in t.futures ==> Timely(t.futures[id], t.now, late) && id < t.created)
  }

  ghost predicate Inv(t: Timer) {
    Sound(t, t.now)
  }

  // -------------------------------------------------------------------------------------
  // Single operations
  // -------------------------------------------------------------------------------------

  lemma NewKeeps(now: int)
    ensures Inv(New(now))
  {
  }

  lemma WaitKeeps(t: Timer, expiry: int)
    requires Inv(t)
    ensures Inv(WaitUntil(t, expiry))
  {
  }

  /** A node that is not registered is not in the heap. */
  lemma NotQueued(t: Timer, id: nat)
    requires Queued(t) && !(id in t.futures && t.futures[id].state.Registered?)
    ensures id !in PairingHeap.Ids(t.heap)
  {
    IdsOfEntries(t.heap);
  }

  lemma IsQueued(t: Timer, id: nat)
    requires Queued(t) && id in t.futures && t.futures[id].state.Registered?
    ensures id in PairingHeap.Ids(t.heap)
  {
    IdsOfEntries(t.heap);
    assert Entry(id, t.futures[id].expiry) in Entries(t.heap);
  }

  /** The clock, and every future but one, are as they were; that one keeps its expiry. */
  ghost predicate OnlyOneChanged(t: Timer, t': Timer, id: nat)
    requires id in t.futures
  {
    && t'.now == t.now && t'.created == t.created && t'.futures.Keys == t.futures.Keys
    && t'.futures[id].expiry == t.futures[id].expiry
    && forall j :: j in t.futures && j != id ==> t'.futures[j] == t.futures[j]
  }

  /**
   A future that has not completed returns Ready exactly when the clock is at or past its
   expiry, whatever state it is in; if it does not, it will wake the task that polled it.
   */
  lemma PollKeeps(t: Timer, id: nat, waker: nat)
    requires Inv(t) && id in t.futures
    ensures Inv(PollWait(t, id, waker).t)
    ensures PollWait(t, id, waker).answer.Panic? <==> t.futures[id].taken
    ensures !t.futures[id].taken ==> (PollWait(t, id, waker).answer.Ready? <==> t.now >= t.futures[id].expiry)
    ensures PollWait(t, id, waker).answer.Pending? ==> PollWait(t, id, waker).t.futures[id].task == Some(waker)
    ensures OnlyOneChanged(t, PollWait(t, id, waker).t, id)
  {
    var w := t.futures[id];
    assert Timely(w, t.now, t.now);
    if w.state.Unregistered? && t.now < w.expiry {
      NotQueued(t, id);
      InsertKeeps(t.heap, Entry(id, w.expiry));
    }
  }

  /** A node leaves the heap together with its registration. */
  lemma LeavesQueue(t: Timer, id: nat)
    requires Queued(t) && id in t.futures && t.futures[id].state.Registered?
    ensures Heap(Remove(t.heap, id))
    ensures Entries(Remove(t.heap, id)) == Others(Entries(t.heap), id)
    ensures Size(Remove(t.heap, id)) < Size(t.heap)
  {
    IsQueued(t, id);
    RemoveKeeps(t.heap, id);
  }

  lemma DropKeeps(t: Timer, id: nat)
    requires Inv(t) && id in t.futures
    ensures Inv(DropWait(t, id))
  {
    assert Timely(t.futures[id], t.now, t.now);
    if t.futures[id].state.Registered? {
      LeavesQueue(t, id);
    }
  }

  // -------------------------------------------------------------------------------------
  // Advancing the clock
  // -------------------------------------------------------------------------------------

  predicate Due(w: Wait, now: int) {
    w.state.Registered? && w.expiry <= now
  }

  lemma ExpireKeeps(t: Timer, id: nat, now: int)
    requires Sound(t, now) && id in t.futures && Due(t.futures[id], now)
    ensures Sound(Expire(t, id), now)
  {
    LeavesQueue(t, id);
  }

  /** When the root is in the future, everything in the heap is. */
  lemma NoneDue(t: Timer, now: int)
    requires Queued(t) && (t.heap.Nil? || now < t.heap.entry.expiry)
    ensures forall id :: id in t.futures ==> !Due(t.futures[id], now)
  {
    forall id | id in t.futures && t.futures[id].state.Registered?
      ensures now < t.futures[id].expiry
    {
      RootIsFirst(t.heap, Entry(id, t.futures[id].expiry));
    }
  }

  /** The root is registered, and none that is registered expires earlier. */
  lemma RootRegistered(t: Timer, id: nat)
    requires Queued(t) && t.heap.Node? && id == t.heap.entry.id
    ensures id in t.futures && t.futures[id].state.Registered? && t.futures[id].expiry == t.heap.entry.expiry
    ensures forall j :: j in t.futures && t.futures[j].state.Registered? ==> t.futures[id].expiry <= t.futures[j].expiry
  {
    assert t.heap.entry in Entries(t.heap);
    forall j | j in t.futures && t.futures[j].state.Registered?
      ensures t.futures[id].expiry <= t.futures[j].expiry
    {
      RootIsFirst(t.heap, Entry(j, t.futures[j].expiry));
    }
  }

  /** Exactly the due futures changed, from registered to expired. */
  ghost predicate Fired(t: Timer, t': Timer, now: int) {
    && t'.futures.Keys == t.futures.Keys
    && t'.created == t.created
    && (forall id :: id in t.futures ==>
          t'.futures[id] ==
            if Due(t.futures[id], now) then t.futures[id].(state := Expired, task := None) else t.futures[id])
  }

  /** The futures that fired are the due ones, once each, earliest first. */
  ghost predicate InOrder(t: Timer, fired: seq<nat>, now: int) {
    && (forall i :: 0 <= i < |fired| ==> fired[i] in t.futures && Due(t.futures[fired[i]], now))
    && (forall id :: id in t.futures && Due(t.futures[id], now) ==> id in fired)
    && (forall i, j :: 0 <= i < j < |fired| ==>
          fired[i] != fired[j] && t.futures[fired[i]].expiry <= t.futures[fired[j]].expiry)
  }

  /** One waker is invoked for each of them, in the same order. */
  ghost predicate Rung(t: Timer, fired: seq<nat>, woken: seq<nat>) {
    && |woken| == |fired|
    && (forall i :: 0 <= i < |fired| ==> fired[i] in t.futures && t.futures[fired[i]].task == Some(woken[i]))
  }

  lemma FiredStep(t: Timer, t': Timer, now: int, id: nat)
    requires id in t.futures && Due(t.futures[id], now) && Fired(Expire(t, id), t', now)
    ensures Fired(t, t', now)
  {
  }

  lemma InOrderStep(t: Timer, fired: seq<nat>, now: int, id: nat)
    requires id in t.futures && Due(t.futures[id], now) && InOrder(Expire(t, id), fired, now)
    requires forall j :: j in t.futures && t.futures[j].state.Registered? ==>
      t.futures[id].expiry <= t.futures[j].expiry
    ensures InOrder(t, [id] + fired, now)
  {
    var all := [id] + fired;
    forall j | j in t.futures && Due(t.futures[j], now)
      ensures j in all
    {
      if j != id {
        assert Due(Expire(t, id).futures[j], now);
      }
    }
  }

  lemma RungStep(t: Timer, fired: seq<nat>, woken: seq<nat>, id: nat)
    requires id in t.futures && t.futures[id].task.Some? && Rung(Expire(t, id), fired, woken)
    ensures Rung(t, [id] + fired, WakerOf(t, id) + woken)
  {
  }

  lemma {:induction false} DrainFires(t: Timer, now: int)
    requires Sound(t, now)
    ensures var r := Drain(t, now);
      && Sound(r.t, now) && r.t.now == t.now
      && Fired(t, r.t, now) && InOrder(t, r.fired, now) && Rung(t, r.fired, r.woken)
      && forall id :: id in r.t.futures ==> !Due(r.t.futures[id], now)
    decreases Size(t.heap)
  {
    if t.heap.Nil? || now < t.heap.entry.expiry {
      NoneDue(t, now);
    } else {
      var id := t.heap.entry.id;
      RootRegistered(t, id);
      assert Timely(t.futures[id], t.now, now);
      LeavesQueue(t, id);
      ExpireKeeps(t, id, now);
      var t1 := Expire(t, id);
      DrainFires(t1, now);
      var r := Drain(t1, now);
      FiredStep(t, r.t, now, id);
      InOrderStep(t, r.fired, now, id);
      RungStep(t, r.fired, r.woken, id);
    }
  }

  /** One turn of the loop. */
  lemma DrainStep(t: Timer, now: int, id: nat)
    requires Sound(t, now) && t.heap.Node? && t.heap.entry.expiry <= now && id == t.heap.entry.id
    ensures id in t.futures && Sound(Expire(t, id), now)
    ensures Size(Expire(t, id).heap) < Size(t.heap)
    ensures Drain(t, now).t == Drain(Expire(t, id), now).t
    ensures Drain(t, now).woken == WakerOf(t, id) + Drain(Expire(t, id), now).woken
  {
    RootRegistered(t, id);
    LeavesQueue(t, id);
    ExpireKeeps(t, id, now);
  }

  /** `advance_clock` expires and wakes exactly the futures that are due, earliest first. */
  lemma AdvanceFires(t: Timer, now: int)
    requires Inv(t) && t.now <= now
    ensures var r := Advance(t, now);
      && Inv(r.t) && r.t.now == now
      && Fired(t, r.t, now) && InOrder(t, r.fired, now) && Rung(t, r.fired, r.woken)
  {
    assert Sound(t, now);
    DrainFires(t, now);
    var r := Drain(t, now);
    forall id | id in r.t.futures
      ensures Timely(r.t.futures[id], now, now)
    {
      assert Timely(r.t.futures[id], t.now, now);
      assert !Due(r.t.futures[id], now);
    }
  }

  // -------------------------------------------------------------------------------------
  // Every run
  // -------------------------------------------------------------------------------------

  datatype Op =
    | OpWait(expiry: int)
    | OpWaitFor(timeout: nat)
    | OpPoll(id: nat, waker: nat)
    | OpDrop(id: nat)
    | OpAdvance(now: int)

  /** A poll that was answered: what it said, the clock at that moment, and what the future was asked for. */
  datatype Said = Said(ready: bool, now: int, expiry: int)

  /**
   A run so far: its answers, the instant each future was asked to wait for, and the waker it was
   last polled with.
   */
  datatype History = History(t: Timer, said: seq<Said>, asked: map<nat, int>, last: map<nat, nat>, panicked: bool)

  function Asked(h: History, id: nat): (expiry: int) {
    if id in h.asked then h.asked[id] else 0
  }

  /** One operation; one on a future that does not exist is no operation. */
  function Do(h: History, op: Op): (r: History) {
    if h.panicked then h else
    match op
    case OpWait(expiry) => h.(t := WaitUntil(h.t, expiry), asked := h.asked[h.t.created := expiry])
    case OpWaitFor(timeout) => h.(t := WaitFor(h.t, timeout), asked := h.asked[h.t.created := h.t.now + timeout])
    case OpPoll(id, waker) =>
      if id !in h.t.futures then h
      else
        var r := PollWait(h.t, id, waker);
        if r.answer.Panic? then h.(panicked := true)
        else h.(t := r.t, said := h.said + [Said(r.answer.Ready?, h.t.now, Asked(h, id))],
                last := h.last[id := waker])
    case OpDrop(id) => if id in h.t.futures then h.(t := DropWait(h.t, id)) else h
    case OpAdvance(now) => if now < h.t.now then h.(panicked := true) else h.(t := Advance(h.t, now).t)
  }

  function Run(now: int, ops: seq<Op>): (r: History) {
    if ops == [] then History(New(now), [], map[], map[], false) else Do(Run(now, ops[..|ops| - 1]), ops[|ops| - 1])
  }

  ghost predicate AllTrue(said: seq<Said>) {
    forall i :: 0 <= i < |said| ==> (said[i].ready <==> said[i].now >= said[i].expiry)
  }

  /** Every future waits for what it was asked for, and a registered one will wake whoever polled it last. */
  ghost predicate Wired(h: History) {
    && (forall id :: id in h.t.futures ==> id in h.asked && h.t.futures[id].expiry == h.asked[id])
    && forall id :: id in h.t.futures && h.t.futures[id].state.Registered? ==>
      id in h.last && h.t.futures[id].task == Some(h.last[id])
  }

  lemma DoPollKeeps(h: History, id: nat, waker: nat)
    requires Inv(h.t) && AllTrue(h.said) && Wired(h) && !h.panicked && id in h.t.futures
    ensures var h' := Do(h, OpPoll(id, waker)); Inv(h'.t) && AllTrue(h'.said) && Wired(h')
  {
    hide Inv;
    PollKeeps(h.t, id, waker);
  }

  lemma DoDropKeeps(h: History, id: nat)
    requires Inv(h.t) && Wired(h) && !h.panicked && id in h.t.futures
    ensures Inv(Do(h, OpDrop(id)).t) && Wired(Do(h, OpDrop(id)))
  {
    hide Inv;
    DropKeeps(h.t, id);
  }

  lemma DoAdvanceKeeps(h: History, now: int)
    requires Inv(h.t) && Wired(h) && !h.panicked && h.t.now <= now
    ensures Inv(Do(h, OpAdvance(now)).t) && Wired(Do(h, OpAdvance(now)))
  {
    AdvanceFires(h.t, now);
    hide Inv;
  }

  lemma DoKeeps(h: History, op: Op)
    requires Inv(h.t) && AllTrue(h.said) && Wired(h)
    ensures Inv(Do(h, op).t) && AllTrue(Do(h, op).said) && Wired(Do(h, op))
  {
    if !h.panicked {
      match op
      case OpWait(expiry) => WaitKeeps(h.t, expiry);
      case OpWaitFor(timeout) => WaitKeeps(h.t, h.t.now + timeout);
      case OpPoll(id, waker) => if id in h.t.futures { DoPollKeeps(h, id, waker); }
      case OpDrop(id) => if id in h.t.futures { DoDropKeeps(h, id); }
      case OpAdvance(now) => if h.t.now <= now { DoAdvanceKeeps(h, now); }
    }
  }

  /**
   In every run of create, poll, drop and advance, every answer is what the clock says, and every
   registered future holds the waker it was last polled with.
   */
  lemma {:induction false} EveryRun(now: int, ops: seq<Op>)
    ensures Inv(Run(now, ops).t) && AllTrue(Run(now, ops).said) && Wired(Run(now, ops))
    decreases |ops|
  {
    if ops != [] {
      EveryRun(now, ops[..|ops| - 1]);
      DoKeeps(Run(now, ops[..|ops| - 1]), ops[|ops| - 1]);
    }
  }

  /** At any point of any run, advancing the clock wakes, for each due future, the task that polled it last. */
  lemma EveryRing(now: int, ops: seq<Op>, instant: int)
    requires Run(now, ops).t.now <= instant
    ensures var h := Run(now, ops); var r := Advance(h.t, instant);
      && InOrder(h.t, r.fired, instant)
      && |r.woken| == |r.fired|
      && forall i :: 0 <= i < |r.fired| ==> r.fired[i] in h.last && r.woken[i] == h.last[r.fired[i]]
  {
    EveryRun(now, ops);
    AdvanceFires(Run(now, ops).t, instant);
  }
}
