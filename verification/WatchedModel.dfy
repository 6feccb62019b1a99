/**
 A watched value and its watch futures, as a value. The waiter list is a sequence of future
 numbers, its front first.
 */
module WatchedModel {
  import opened Options

  datatype WatchState = Unregistered | Registered | Completed(polled: bool)

  datatype Watch = Watch(task: Option<nat>, state: WatchState)

  datatype Watched<T> = Watched(value: T, waiters: seq<nat>, futures: map<nat, Watch>, created: nat)

  // -------------------------------------------------------------------------------------
  // Operations
  // -------------------------------------------------------------------------------------

  function New<T>(value: T): (v: Watched<T>) {
    Watched(value, [], map[], 0)
  }

  /** `watch`: the new future is number `v.created`. */
  function NewWatch<T>(v: Watched<T>): (r: Watched<T>) {
    v.(futures := v.futures[v.created := Watch(None, Unregistered)], created := v.created + 1)
  }

  function SetWithoutNotify<T>(v: Watched<T>, value: T): (r: Watched<T>) {
    v.(value := value)
  }

  datatype Drained = Drained(futures: map<nat, Watch>, woken: seq<nat>)

  /** `reverse_drain` with the callback of `modify`: the last waiter of the list goes first. */
  function Drain(futures: map<nat, Watch>, waiters: seq<nat>): (r: Drained)
    decreases |waiters|
  {
    if waiters == [] then Drained(futures, [])
    else
      var rest, id := waiters[..|waiters| - 1], waiters[|waiters| - 1];
      if id !in futures then Drain(futures, rest)
      else
        var r := Drain(futures[id := Watch(None, Completed(false))], rest);
        r.(woken := ToSeq(futures[id].task) + r.woken)
  }

  datatype Modified<T> = Modified(v: Watched<T>, woken: seq<nat>)

  /** `modify`. */
  function Modify<T>(v: Watched<T>, f: T -> T): (r: Modified<T>) {
    var d := Drain(v.futures, v.waiters);
    Modified(v.(value := f(v.value), waiters := [], futures := d.futures), d.woken)
  }

  datatype Polled<T> = Polled(v: Watched<T>, ready: bool)

  /** `WatchFuture::poll`. */
  function PollWatch<T>(v: Watched<T>, id: nat, waker: nat): (r: Polled<T>)
    requires id in v.futures
  {
    var w := v.futures[id];
    match w.state
    case Unregistered =>
      Polled(v.(futures := v.futures[id := Watch(Some(waker), Registered)], waiters := [id] + v.waiters), false)
    case Registered => Polled(v.(futures := v.futures[id := w.(task := Some(waker))]), false)
    case Completed(_) => Polled(v.(futures := v.futures[id := w.(state := Completed(true))]), true)
  }

  function IndexOf(s: seq<nat>, x: nat): (i: nat)
    requires x in s
    ensures i < |s| && s[i] == x
  {
    if s[0] == x then 0 else 1 + IndexOf(s[1..], x)
  }

  /** The list without a node, or nothing if the node is not in it. */
  function Remove(s: seq<nat>, x: nat): (r: Option<seq<nat>>) {
    if x in s then Some(s[..IndexOf(s, x)] + s[IndexOf(s, x) + 1..]) else None
  }

  /** `WatchFuture::drop`; nothing stands for the panic on a failed removal. */
  function DropWatch<T>(v: Watched<T>, id: nat): (r: Option<Watched<T>>)
    requires id in v.futures
  {
    if !v.futures[id].state.Registered? then Some(v.(futures := v.futures - {id}))
    else
      var waiters := Remove(v.waiters, id);
      if waiters.None? then None
      else Some(v.(waiters := waiters.value, futures := v.futures - {id}))
  }

  /** `FusedFuture::is_terminated`. */
  predicate IsTerminated<T>(v: Watched<T>, id: nat)
    requires id in v.futures
  {
    v.futures[id].state == Completed(true)
  }

  // -------------------------------------------------------------------------------------
  // The invariant
  // -------------------------------------------------------------------------------------

  ghost predicate NoTwice(s: seq<nat>) {
    forall i, j :: 0 <= i < j < |s| ==> s[i] != s[j]
  }

  /** The list holds exactly the registered futures, once each. */
  ghost predicate Inv<T>(v: Watched<T>) {
    && NoTwice(v.waiters)
    && (forall id :: id in v.waiters <==> id in v.futures && v.futures[id].state.Registered?)
    && (forall id :: id in v.futures && v.futures[id].state.Registered? ==> v.futures[id].task.Some?)
    && (forall id :: id in v.futures ==> id < v.created)
  }

  /** The value, and every future but one, are as they were. */
  ghost predicate OnlyOneChanged<T>(v: Watched<T>, v': Watched<T>, id: nat) {
    && v'.value == v.value && v'.created == v.created && v'.futures.Keys == v.futures.Keys
    && forall j :: j in v.futures && j != id ==> v'.futures[j] == v.futures[j]
  }

  /** A future that is not ready will wake the task that polled it. */
  lemma PollKeeps<T>(v: Watched<T>, id: nat, waker: nat)
    requires Inv(v) && id in v.futures
    ensures Inv(PollWatch(v, id, waker).v)
    ensures !PollWatch(v, id, waker).ready ==> PollWatch(v, id, waker).v.futures[id].task == Some(waker)
    ensures OnlyOneChanged(v, PollWatch(v, id, waker).v, id)
  {
    var v' := PollWatch(v, id, waker).v;
    forall x
      ensures x in v'.waiters <==> x in v'.futures && v'.futures[x].state.Registered?
    {
      assert x in v.waiters <==> x in v.futures && v.futures[x].state.Registered?;
    }
  }

  lemma CutOut(s: seq<nat>, i: nat)
    requires NoTwice(s) && i < |s|
    ensures NoTwice(s[..i] + s[i + 1..])
    ensures forall y :: y in s[..i] + s[i + 1..] <==> y in s && y != s[i]
  {
    var r := s[..i] + s[i + 1..];
    forall a | 0 <= a < |r|
      ensures r[a] == if a < i then s[a] else s[a + 1]
    {
    }
    forall y | y in s && y != s[i]
      ensures y in r
    {
      var j :| 0 <= j < |s| && s[j] == y;
      assert if j < i then r[j] == y else r[j - 1] == y;
    }
  }

  /** A registered future is in the list, so its removal succeeds. */
  lemma RemoveKeeps(s: seq<nat>, x: nat)
    requires NoTwice(s) && x in s
    ensures Remove(s, x).Some? && NoTwice(Remove(s, x).value)
    ensures forall y :: y in Remove(s, x).value <==> y in s && y != x
    ensures exists i :: 0 <= i <= |Remove(s, x).value| && s == Remove(s, x).value[..i] + [x] + Remove(s, x).value[i..]
  {
    hide NoTwice;
    var i := IndexOf(s, x);
    var r := s[..i] + s[i + 1..];
    CutOut(s, i);
    assert r[..i] == s[..i] && r[i..] == s[i + 1..];
    assert s == r[..i] + [x] + r[i..];
  }

  lemma DropKeeps<T>(v: Watched<T>, id: nat)
    requires Inv(v) && id in v.futures
    ensures DropWatch(v, id).Some? && Inv(DropWatch(v, id).value)
    ensures DropWatch(v, id).value.futures == v.futures - {id}
  {
    if v.futures[id].state.Registered? {
      assert id in v.waiters;
      RemoveKeeps(v.waiters, id);
    }
  }

  // -------------------------------------------------------------------------------------
  // Modification
  // -------------------------------------------------------------------------------------

  /** The waiters, and only they, are completed. */
  ghost predicate CompletedAll(before: map<nat, Watch>, after: map<nat, Watch>, waiters: seq<nat>) {
    && after.Keys == before.Keys
    && forall id :: id in before ==> after[id] == if id in waiters then Watch(None, Completed(false)) else before[id]
  }

  ghost predicate Wakeable(futures: map<nat, Watch>, waiters: seq<nat>) {
    NoTwice(waiters) && forall id :: id in waiters ==> id in futures && futures[id].task.Some?
  }

  /** One waker per waiter, from the back of the list. */
  ghost predicate RungBackwards(futures: map<nat, Watch>, waiters: seq<nat>, woken: seq<nat>)
    requires Wakeable(futures, waiters)
  {
    && |woken| == |waiters|
    && forall i :: 0 <= i < |waiters| ==> futures[waiters[i]].task == Some(woken[|waiters| - 1 - i])
  }

  lemma WithoutLast(futures: map<nat, Watch>, waiters: seq<nat>, n: nat)
    requires Wakeable(futures, waiters) && |waiters| == n + 1
    ensures Wakeable(futures[waiters[n] := Watch(None, Completed(false))], waiters[..n])
    ensures waiters[n] !in waiters[..n]
  {
    assert forall x :: x in waiters[..n] ==> x in waiters;
  }

  lemma {:induction false} DrainCompletes(futures: map<nat, Watch>, waiters: seq<nat>)
    requires Wakeable(futures, waiters)
    ensures CompletedAll(futures, Drain(futures, waiters).futures, waiters)
    decreases |waiters|
  {
    if waiters != [] {
      var n := |waiters| - 1;
      WithoutLast(futures, waiters, n);
      DrainCompletes(futures[waiters[n] := Watch(None, Completed(false))], waiters[..n]);
      assert waiters == waiters[..n] + [waiters[n]];
    }
  }

  lemma {:induction false} DrainWakes(futures: map<nat, Watch>, waiters: seq<nat>)
    requires Wakeable(futures, waiters)
    ensures RungBackwards(futures, waiters, Drain(futures, waiters).woken)
    decreases |waiters|
  {
    if waiters != [] {
      var n := |waiters| - 1;
      WithoutLast(futures, waiters, n);
      DrainWakes(futures[waiters[n] := Watch(None, Completed(false))], waiters[..n]);
    }
  }

  /**
   A modification completes every registered future and wakes their tasks from the back of
   the list; nothing else changes but the value.
   */
  lemma ModifyCompletes<T>(v: Watched<T>, f: T -> T)
    requires Inv(v)
    ensures var r := Modify(v, f);
      && Inv(r.v)
      && r.v.value == f(v.value)
      && r.v.waiters == []
      && CompletedAll(v.futures, r.v.futures, v.waiters)
      && Wakeable(v.futures, v.waiters)
      && RungBackwards(v.futures, v.waiters, r.woken)
  {
    DrainCompletes(v.futures, v.waiters);
    DrainWakes(v.futures, v.waiters);
  }

  // -------------------------------------------------------------------------------------
  // Every run
  // -------------------------------------------------------------------------------------

  datatype Op<!T> =
    | OpWatch
    | OpModify(f: T -> T)
    | OpSilently(value: T)
    | OpPoll(id: nat, waker: nat)
    | OpDrop(id: nat)

  /** A poll that was answered, and whether a modification had happened since the first poll. */
  datatype Said = Said(ready: bool, modifiedSince: bool)

  /**
   A run so far. Beside the value: how many modifications there have been, how many there had
   been when a future was first polled, its turn among the first polls, the waker it was last polled
   with, and which futures have returned Ready; and what the value should be.
   */
  datatype History<T> = History(v: Watched<T>, modifications: nat, first: map<nat, nat>, turn: map<nat, nat>,
                                last: map<nat, nat>, returned: set<nat>, expected: T, said: seq<Said>, panicked: bool)

  predicate ModifiedSince<T>(h: History<T>, id: nat) {
    id in h.first && h.first[id] < h.modifications
  }

  function Do<T>(h: History<T>, op: Op<T>): (r: History<T>) {
    if h.panicked then h else
    match op
    case OpWatch => h.(v := NewWatch(h.v))
    case OpModify(f) =>
      h.(v := Modify(h.v, f).v, modifications := h.modifications + 1, expected := f(h.expected))
    case OpSilently(value) => h.(v := SetWithoutNotify(h.v, value), expected := value)
    case OpPoll(id, waker) =>
      if id !in h.v.futures then h
      else
        var r := PollWatch(h.v, id, waker);
        h.(v := r.v,
           first := if id in h.first then h.first else h.first[id := h.modifications],
           turn := if id in h.turn then h.turn else h.turn[id := |h.turn|],
           last := h.last[id := waker],
           returned := if r.ready then h.returned + {id} else h.returned,
           said := h.said + [Said(r.ready, ModifiedSince(h, id))])
    case OpDrop(id) =>
      if id !in h.v.futures then h
      else
        var r := DropWatch(h.v, id);
        if r.None? then h.(panicked := true) else h.(v := r.value)
  }

  function Run<T>(value: T, ops: seq<Op<T>>): (r: History<T>) {
    if ops == [] then History(New(value), 0, map[], map[], map[], {}, value, [], false)
    else Do(Run(value, ops[..|ops| - 1]), ops[|ops| - 1])
  }

  /** What a future's state says about the run. */
  ghost predicate Tells<T>(h: History<T>, id: nat)
    requires id in h.v.futures
  {
    && (id in h.first <==> !h.v.futures[id].state.Unregistered?)
    && (ModifiedSince(h, id) <==> h.v.futures[id].state.Completed?)
    && (id in h.returned <==> IsTerminated(h.v, id))
    && (h.v.futures[id].state.Registered? ==> id in h.last && h.v.futures[id].task == Some(h.last[id]))
  }

  ghost predicate Truthful<T>(h: History<T>) {
    && !h.panicked
    && Inv(h.v)
    && h.v.value == h.expected
    && (forall id :: id in h.v.futures ==> Tells(h, id))
    && (forall id :: id in h.first ==> id < h.v.created && h.first[id] <= h.modifications)
    && (forall id :: id in h.returned ==> id < h.v.created)
    && (forall i :: 0 <= i < |h.said| ==> (h.said[i].ready <==> h.said[i].modifiedSince))
  }

  lemma WatchTruthful<T>(h: History<T>)
    requires Truthful(h)
    ensures Truthful(Do(h, OpWatch))
  {
    var h' := Do(h, OpWatch);
    forall id | id in h'.v.futures
      ensures Tells(h', id)
    {
      if id in h.v.futures {
        assert Tells(h, id);
      }
    }
  }

  lemma ModifyTruthful<T>(h: History<T>, f: T -> T)
    requires Truthful(h)
    ensures Truthful(Do(h, OpModify(f)))
  {
    ModifyCompletes(h.v, f);
    var h' := Do(h, OpModify(f));
    forall id | id in h'.v.futures
      ensures Tells(h', id)
    {
      assert Tells(h, id);
    }
  }

  lemma PollTells<T>(h: History<T>, id: nat, waker: nat, x: nat)
    requires id in h.v.futures && x in h.v.futures && Tells(h, id) && Tells(h, x)
    requires id in h.first ==> h.first[id] <= h.modifications
    ensures var h' := Do(h, OpPoll(id, waker)); x in h'.v.futures && Tells(h', x)
  {
  }

  lemma PollTruthful<T>(h: History<T>, id: nat, waker: nat)
    requires Truthful(h) && id in h.v.futures
    ensures Truthful(Do(h, OpPoll(id, waker)))
  {
    PollKeeps(h.v, id, waker);
    assert id < h.v.created && Tells(h, id);
    var h' := Do(h, OpPoll(id, waker));
    forall x | x in h'.v.futures
      ensures Tells(h', x)
    {
      PollTells(h, id, waker, x);
    }
    hide Inv;
  }

  lemma DropTruthful<T>(h: History<T>, id: nat)
    requires Truthful(h) && id in h.v.futures
    ensures Truthful(Do(h, OpDrop(id)))
  {
    DropKeeps(h.v, id);
    var h' := Do(h, OpDrop(id));
    forall x | x in h'.v.futures
      ensures Tells(h', x)
    {
      assert Tells(h, x);
    }
  }

  lemma SilentTruthful<T>(h: History<T>, value: T)
    requires Truthful(h)
    ensures Truthful(Do(h, OpSilently(value)))
  {
    var h' := Do(h, OpSilently(value));
    forall x | x in h'.v.futures
      ensures Tells(h', x)
    {
      assert Tells(h, x);
    }
  }

  lemma DoTruthful<T>(h: History<T>, op: Op<T>)
    requires Truthful(h)
    ensures Truthful(Do(h, op))
  {
    match op
    case OpWatch => WatchTruthful(h);
    case OpModify(f) => ModifyTruthful(h, f);
    case OpSilently(value) => SilentTruthful(h, value);
    case OpPoll(id, waker) => if id in h.v.futures { PollTruthful(h, id, waker); }
    case OpDrop(id) => if id in h.v.futures { DropTruthful(h, id); }
  }

  /** The list holds the futures in the order of their first polls, the latest in front. */
  ghost predicate LatestFirst(waiters: seq<nat>, turn: map<nat, nat>) {
    && (forall i :: 0 <= i < |waiters| ==> waiters[i] in turn)
    && forall i, j :: 0 <= i < j < |waiters| ==> turn[waiters[j]] < turn[waiters[i]]
  }

  ghost predicate Queueing<T>(h: History<T>) {
    && (forall id :: id in h.turn <==> id in h.first)
    && Counted(h.turn)
    && LatestFirst(h.v.waiters, h.turn)
  }

  lemma WithoutOne(r: seq<nat>, n: nat, x: nat, turn: map<nat, nat>)
    requires n <= |r| && LatestFirst(r[..n] + [x] + r[n..], turn)
    ensures LatestFirst(r, turn)
  {
    var s := r[..n] + [x] + r[n..];
    forall i | 0 <= i < |r|
      ensures r[i] == s[if i < n then i else i + 1]
    {
    }
    forall i, j | 0 <= i < j < |r|
      ensures r[i] in turn && r[j] in turn && turn[r[j]] < turn[r[i]]
    {
      assert r[i] == s[if i < n then i else i + 1] && r[j] == s[if j < n then j else j + 1];
    }
  }

  lemma RemoveStaysLatestFirst(s: seq<nat>, x: nat, turn: map<nat, nat>)
    requires NoTwice(s) && x in s && LatestFirst(s, turn)
    ensures LatestFirst(Remove(s, x).value, turn)
  {
    RemoveKeeps(s, x);
    var r := Remove(s, x).value;
    hide Remove, LatestFirst, NoTwice;
    var n :| 0 <= n <= |r| && s == r[..n] + [x] + r[n..];
    WithoutOne(r, n, x, turn);
  }

  /** Turns are counted. */
  ghost predicate Counted(turn: map<nat, nat>) {
    forall id :: id in turn ==> turn[id] < |turn|
  }

  lemma OneMore(turn: map<nat, nat>, id: nat, n: nat)
    requires id !in turn
    ensures |turn[id := n]| == |turn| + 1
  {
    assert turn[id := n].Keys == turn.Keys + {id};
    assert |turn[id := n]| == |turn[id := n].Keys| && |turn| == |turn.Keys|;
  }

  lemma NewInFront(waiters: seq<nat>, turn: map<nat, nat>, id: nat, n: nat)
    requires LatestFirst(waiters, turn) && id !in turn && forall x :: x in turn ==> turn[x] < n
    ensures LatestFirst([id] + waiters, turn[id := n])
  {
    var turn', all := turn[id := n], [id] + waiters;
    forall i | 0 <= i < |waiters|
      ensures all[i + 1] == waiters[i] && waiters[i] in turn' && turn'[waiters[i]] == turn[waiters[i]] < n
    {
    }
    forall i, j | 0 <= i < j < |all|
      ensures all[i] in turn' && all[j] in turn' && turn'[all[j]] < turn'[all[i]]
    {
      assert all[j] == waiters[j - 1];
      assert i > 0 ==> all[i] == waiters[i - 1];
    }
  }

  lemma NextTurn(waiters: seq<nat>, turn: map<nat, nat>, id: nat)
    requires LatestFirst(waiters, turn) && Counted(turn) && id !in turn
    ensures LatestFirst([id] + waiters, turn[id := |turn|]) && Counted(turn[id := |turn|])
  {
    NewInFront(waiters, turn, id, |turn|);
    OneMore(turn, id, |turn|);
    hide LatestFirst;
  }

  lemma PollQueues<T>(h: History<T>, id: nat, waker: nat)
    requires Truthful(h) && Queueing(h) && id in h.v.futures
    ensures Queueing(Do(h, OpPoll(id, waker)))
  {
    assert Tells(h, id);
    if id !in h.turn {
      NextTurn(h.v.waiters, h.turn, id);
    }
    hide LatestFirst, Counted, Inv;
  }

  lemma DoQueues<T>(h: History<T>, op: Op<T>)
    requires Truthful(h) && Queueing(h)
    ensures Queueing(Do(h, op))
  {
    match op
    case OpWatch =>
    case OpModify(f) =>
    case OpSilently(value) =>
    case OpPoll(id, waker) => if id in h.v.futures { PollQueues(h, id, waker); }
    case OpDrop(id) =>
      if id in h.v.futures && h.v.futures[id].state.Registered? {
        assert id in h.v.waiters;
        RemoveStaysLatestFirst(h.v.waiters, id, h.turn);
      }
  }

  /**
   In every run: the value is what the modifications made of it, a polled future is Ready exactly
   when a modification came after its first poll, a future is terminated exactly when it has
   returned Ready, and the removal on drop never fails. The waiters are listed in the order of
   their first polls, the latest in front.
   */
  lemma {:induction false} EveryRun<T>(value: T, ops: seq<Op<T>>)
    ensures Truthful(Run(value, ops)) && Queueing(Run(value, ops))
    decreases |ops|
  {
    if ops != [] {
      EveryRun(value, ops[..|ops| - 1]);
      DoQueues(Run(value, ops[..|ops| - 1]), ops[|ops| - 1]);
      DoTruthful(Run(value, ops[..|ops| - 1]), ops[|ops| - 1]);
    }
  }

  /**
   At any point of any run a modification wakes, once for each registered future and in the order of
   their first polls, the task that polled that future last.
   */
  lemma EveryRing<T>(value: T, ops: seq<Op<T>>, f: T -> T)
    ensures var h := Run(value, ops); var woken := Modify(h.v, f).woken;
      && |woken| == |h.v.waiters|
      && forall i :: 0 <= i < |woken| ==>
           var id := h.v.waiters[|woken| - 1 - i];
           id in h.v.futures && h.v.futures[id].state.Registered? && id in h.last && woken[i] == h.last[id]
    ensures var h := Run(value, ops); LatestFirst(h.v.waiters, h.turn)
  {
    EveryRun(value, ops);
    var h := Run(value, ops);
    ModifyCompletes(h.v, f);
    forall id | id in h.v.waiters
      ensures id in h.v.futures && h.v.futures[id].state.Registered? && id in h.last
      ensures h.v.futures[id].task == Some(h.last[id])
    {
      assert Tells(h, id);
    }
  }
}
