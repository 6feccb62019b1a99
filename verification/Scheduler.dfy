/** The scheduler over a slab object and shared waker pages. */
module Schedulers {
  import opened Options
  import opened Powers
  import opened KeySpace
  import opened Words
  import opened SlabModel
  import opened PinSlabs
  import opened WakerPages
  import opened SchedulerModel
  import opened SchedulerPass
  import opened SchedulerPage
  import opened SchedulerCall

  /** The number of index bits within a page. */
  const PAGE_SHIFT: nat := 6

  lemma SixtyFour()
    ensures Pow2(PAGE_SHIFT) == PAGE
  {
    assert Pow2(3) == 8;
  }

  /** Shift and mask of a key are its page and its index in the page. */
  lemma PageIndex(key: nat)
    ensures Shr(key, PAGE_SHIFT) == key / 64 && And(key, PAGE - 1) == key % 64
  {
    SixtyFour();
    ShiftIsDivision(key, PAGE_SHIFT);
    MaskIsModulo(key, PAGE_SHIFT);
  }

  /** Owns a task's key, unless the key has been taken out of it. */
  class SchedulerHandle {
    var key: Option<nat>
    const chunk: WakerPage

    constructor (key: nat, page: WakerPage)
      ensures this.key == Some(key) && chunk == page
    {
      this.key := Some(key);
      chunk := page;
    }

    method TakeKey() returns (k: Option<nat>)
      modifies `key
      ensures k == old(key) && key == None
    {
      k := key;
      key := None;
    }

    /** `into_raw`: the key leaves the handle before its destructor runs, which then cancels nothing. */
    method IntoRaw() returns (k: nat)
      requires key.Some?
      modifies `key, chunk`dropped
      ensures old(key) == Some(k) && key == None
      ensures chunk.dropped == old(chunk.dropped)
    {
      var taken := TakeKey();
      k := taken.value;
      Drop();
    }

    /**
     For a handle of a scheduler's key: has the scheduler seen the task of that key return
     Ready? The bit is found by masking the key and the page's word.
     */
    method HasCompleted(ghost sched: Scheduler) returns (b: bool)
      requires key.Some? && sched.Valid() && key.value in sched.model.issued
      requires sched.Paged(key.value) && chunk == sched.pages[key.value / PAGE]
      ensures b <==> key.value in sched.model.completed
      ensures b <==> key.value in Tasks(sched.model) && Tasks(sched.model)[key.value].done
    {
      assert sched.Agrees(key.value);
      assert key.value in Tasks(sched.model) ==> TaskOk(sched.model, key.value);
      PageIndex(key.value);
      b := chunk.HasCompleted(And(key.value, PAGE - 1));
    }

    /** What the destructor does: a handle that still holds its key cancels the task. */
    method Drop()
      modifies `key, chunk`dropped
      ensures key == None
      ensures old(key).None? ==> chunk.dropped == old(chunk.dropped)
      ensures old(key).Some? ==>
        forall j: nat :: Bit(chunk.dropped, j) <==> old(Bit(chunk.dropped, j)) || j == old(key).value % PAGE
    {
      var k := TakeKey();
      if k.Some? {
        PageIndex(k.value);
        chunk.MarkDropped(And(k.value, PAGE - 1));
      }
    }
  }

  class Scheduler {
    const slab: PinSlab<Task>
    var pages: seq<WakerPage>
    /** Polls made and tasks created so far: they number the oracle's answers and the tasks. */
    var polls: nat
    var spawned: nat
    /** The tasks polled in the current call of `poll`. */
    var polled: set<nat>

    ghost var model: Sched
    /** Every object the scheduler is made of. */
    ghost var repr: set<object>

    /** The bits of one key are the model's flags of that key. */
    ghost predicate Agrees(k: nat)
      requires k / PAGE < |pages|
      reads `pages, `model, pages
    {
      var pg := pages[k / PAGE];
      && (Bit(pg.notified, k % PAGE) <==> k in model.notified)
      && (Bit(pg.completed, k % PAGE) <==> k in model.completed)
      && (Bit(pg.dropped, k % PAGE) <==> k in model.dropped)
    }

    ghost predicate Flags()
      reads `pages, `model, pages
    {
      && |pages| == model.pages
      && (forall i, j :: 0 <= i < j < |pages| ==> pages[i] != pages[j])
      && (forall k :: 0 <= k < PAGE * |pages| ==> Agrees(k))
    }

    ghost predicate Owns()
      reads this, slab
    {
      && this in repr && slab in repr
      && (forall p :: p in pages ==> p in repr)
      && (forall a :: a in slab.slots ==> a in repr)
    }

    /** The objects hold what the model says. */
    ghost predicate Shell()
      reads this, slab, slab.slots, pages
    {
      && Owns()
      && slab.Valid()
      && slab.View() == model.slab
      && polls == model.polls
      && spawned == model.spawned
      && polled == model.polled
      && Flags()
    }

    ghost predicate Valid()
      reads this, slab, slab.slots, pages
    {
      Shell() && Inv(model)
    }

    ghost predicate Covered()
      reads `model, `pages
    {
      forall k :: k in model.notified || k in model.completed || k in model.dropped ==> k < PAGE * |pages|
    }

    constructor ()
      ensures Valid() && model == INITIAL
      ensures fresh(repr)
    {
      slab := new PinSlab();
      pages, polls, spawned, polled := [], 0, 0, {};
      model := INITIAL;
      repr := {this, slab};
      new;
      EmptyIsGood<Task>();
    }

    /** There is a page for this key. */
    ghost predicate Paged(key: nat)
      reads `pages
    {
      key / PAGE < |pages|
    }

    /** Every key this scheduler ever issued has a page. */
    lemma IssuedIsPaged(key: nat)
      requires Valid() && key in model.issued
      ensures Paged(key)
    {
    }

    /**
     `get_page`: the page and the index at which the model's three flags of the key are found.
     By `IssuedIsPaged` it is in bounds for every key ever issued.
     */
    method GetPage(key: nat) returns (page: WakerPage, ix: nat)
      requires Flags() && Paged(key)
      ensures page in pages && page == pages[key / PAGE] && ix == key % PAGE < PAGE
      ensures Bit(page.notified, ix) <==> key in model.notified
      ensures Bit(page.completed, ix) <==> key in model.completed
      ensures Bit(page.dropped, ix) <==> key in model.dropped
    {
      assert Agrees(key);
      PageIndex(key);
      page, ix := pages[Shr(key, PAGE_SHIFT)], And(key, PAGE - 1);
    }

    /** Pages are pushed until the key is covered. */
    method Cover(key: nat)
      requires Flags()
      requires Covered()
      modifies `pages, `model
      ensures Flags() && key < PAGE * |pages|
      ensures old(pages) <= pages && forall p :: p in pages ==> p in old(pages) || fresh(p)
      ensures model == old(model).(pages := if key < PAGE * old(model).pages then old(model).pages else key / PAGE + 1)
    {
      while key >= |pages| * PAGE
        invariant old(pages) <= pages && forall p :: p in pages ==> p in old(pages) || fresh(p)
        invariant key >= PAGE * old(|pages|) ==> |pages| <= key / PAGE + 1
        invariant key < PAGE * old(|pages|) ==> |pages| == old(|pages|)
        invariant Flags() && model == old(model).(pages := |pages|)
        invariant Covered()
        decreases key - |pages| * PAGE
      {
        label Before:
        var page := new WakerPage();
        pages := pages + [page];
        model := model.(pages := |pages|);
        forall k | 0 <= k < PAGE * |pages|
          ensures Agrees(k)
        {
          if k / PAGE == |pages| - 1 {
            ZeroBit(k % PAGE);
          } else {
            assert old@Before(Agrees(k));
          }
        }
      }
    }

    /** The model after a change to the flags of one key; nothing else moved. */
    twostate predicate OnlyKey(key: nat)
      requires old(Flags()) && old(pages) == pages && key < PAGE * |pages| && |pages| == model.pages
      reads `pages, `model, pages
    {
      && Agrees(key)
      && (forall k :: 0 <= k < PAGE * |pages| && k != key ==>
            && (k in model.notified <==> k in old(model.notified))
            && (k in model.completed <==> k in old(model.completed))
            && (k in model.dropped <==> k in old(model.dropped)))
      && (forall i :: 0 <= i < |pages| && i != key / PAGE ==> unchanged(pages[i]))
      && (forall j: nat :: j != key % PAGE ==>
            && (Bit(pages[key / PAGE].notified, j) <==> old(Bit(pages[key / PAGE].notified, j)))
            && (Bit(pages[key / PAGE].completed, j) <==> old(Bit(pages[key / PAGE].completed, j)))
            && (Bit(pages[key / PAGE].dropped, j) <==> old(Bit(pages[key / PAGE].dropped, j))))
    }

    twostate lemma OnlyKeyKeepsFlags(key: nat)
      requires old(Flags()) && old(pages) == pages && key < PAGE * |pages| && |pages| == model.pages
      requires OnlyKey(key)
      ensures Flags()
    {
      forall k | 0 <= k < PAGE * |pages|
        ensures Agrees(k)
      {
        assert old(Agrees(k));
        if k / PAGE == key / PAGE && k != key {
          assert k % PAGE != key % PAGE;
        }
      }
    }

    /** The slab is not made of pages: what happens to those leaves it alone. */
    twostate lemma SlabStays()
      requires old(slab.Valid()) && unchanged(slab) && forall a :: a in slab.slots ==> unchanged(a)
      ensures slab.Valid() && slab.View() == old(slab.View())
    {
      slab.Stays();
    }

    /** The notified bit of a key is set; the model moves to a state with that flag. */
    method FlagNotified(key: nat, ghost next: Sched)
      requires Flags() && Paged(key) && next.pages == model.pages
      requires next.notified == model.notified + {key} && next.completed == model.completed
      requires next.dropped == model.dropped
      modifies `model, pages
      ensures Flags() && model == next
    {
      var page, ix := GetPage(key);
      page.Notify(ix);
      model := next;
      OnlyKeyKeepsFlags(key);
    }

    /** A handle's destructor runs: it sets the dropped bit of the key it owns, if it owns one. */
    method FlagDestroyed(handle: SchedulerHandle, ghost next: Sched)
      requires Flags() && handle.chunk in pages && next.pages == model.pages
      requires handle.key.Some? ==> Paged(handle.key.value) && handle.chunk == pages[handle.key.value / PAGE]
      requires next.notified == model.notified && next.completed == model.completed
      requires next.dropped == if handle.key.Some? then model.dropped + {handle.key.value} else model.dropped
      modifies `model, pages, handle`key
      ensures Flags() && model == next && handle.key == None
    {
      ghost var key := handle.key;
      assert key.Some? ==> Agrees(key.value);
      handle.Drop();
      model := next;
      if key.Some? {
        OnlyKeyKeepsFlags(key.value);
      } else {
        SameFlags();
      }
    }

    /** The completed bit of a key is set. */
    method FlagCompleted(key: nat, ghost next: Sched)
      requires Flags() && Paged(key) && next.pages == model.pages
      requires next.notified == model.notified && next.completed == model.completed + {key}
      requires next.dropped == model.dropped
      modifies `model, pages
      ensures Flags() && model == next
    {
      var page, ix := GetPage(key);
      page.MarkCompleted(ix);
      model := next;
      OnlyKeyKeepsFlags(key);
    }

    /** All bits of a key are cleared. */
    method FlagNothing(key: nat, ghost next: Sched)
      requires Flags() && Paged(key) && next.pages == model.pages
      requires next.notified == model.notified - {key} && next.completed == model.completed - {key}
      requires next.dropped == model.dropped - {key}
      modifies `model, pages
      ensures Flags() && model == next
    {
      var page, ix := GetPage(key);
      page.Clear(ix);
      model := next;
      OnlyKeyKeepsFlags(key);
    }

    /** A waker is invoked. */
    method Wake(key: nat)
      requires Valid() && WakeUp(model, key).legal
      modifies `model, pages
      ensures Valid() && model == WakeUp(old(model), key)
    {
      WakeKeeps(model, key);
      assert TaskOk(model, key);
      hide Inv, Good, Grows, TaskOk, Flags, PinSlab.Valid, PinSlab.View;
      FlagNotified(key, WakeUp(model, key));
      SlabStays();
    }

    /** A handle goes out of scope: a task whose key it still owns is cancelled, and nothing else happens. */
    method Destroy(handle: SchedulerHandle)
      requires Valid() && handle !in repr && handle.chunk in pages
      requires handle.key.Some? ==> Paged(handle.key.value) && handle.chunk == pages[handle.key.value / PAGE]
      requires handle.key.Some? ==> DropHandle(model, handle.key.value).legal
      modifies `model, pages, handle`key
      ensures Valid() && handle.key == None
      ensures model == SchedulerModel.Destroy(old(model), Handle(old(handle.key)))
    {
      if handle.key.Some? {
        DropKeeps(model, handle.key.value);
      }
      hide Inv, Good, Grows, Flags, PinSlab.Valid, PinSlab.View;
      FlagDestroyed(handle, SchedulerModel.Destroy(model, Handle(handle.key)));
      SlabStays();
    }

    /** The handle of a live task is destroyed with its key in it. */
    method Cancel(key: nat)
      requires Valid() && DropHandle(model, key).legal
      modifies `model, pages
      ensures Valid() && model == DropHandle(old(model), key)
    {
      DropKeeps(model, key);
      assert TaskOk(model, key);
      hide Inv, Good, Grows;
      var page, _ := GetPage(key);
      var handle := new SchedulerHandle(key, page);
      Destroy(handle);
    }

    /** `into_raw` of a handle of this scheduler: nobody is cancelled. */
    method IntoToken(handle: SchedulerHandle) returns (key: nat)
      requires Valid() && handle !in repr && handle.chunk in pages && handle.key.Some?
      modifies pages, handle`key
      ensures Valid() && old(handle.key) == Some(key)
      ensures model == SchedulerModel.Destroy(old(model), KeyTaken(Handle(old(handle.key))))
    {
      hide Inv;
      key := handle.IntoRaw();
      SameFlags();
      SlabStays();
    }

    /** Pages that existed are still in place; added parts are new objects. */
    twostate predicate Grown()
      reads this
    {
      old(pages) <= pages && fresh(repr - old(repr))
    }

    /** The second half of `Inner::insert`: pages for the key, and its flags initialised. */
    method Register(key: nat)
      requires Flags()
      requires Covered()
      modifies `pages, `model, pages
      ensures Flags()
      ensures old(pages) <= pages && forall p :: p in pages ==> p in old(pages) || fresh(p)
      ensures model == old(model).(
        pages := if key < PAGE * old(model).pages then old(model).pages else key / PAGE + 1,
        notified := old(model).notified + {key},
        completed := old(model).completed - {key},
        dropped := old(model).dropped - {key})
    {
      Cover(key);
      label Ready:
      assert Agrees(key);
      var page, ix := GetPage(key);
      assert page in pages;
      page.Initialize(ix);
      model := model.(notified := model.notified + {key}, completed := model.completed - {key},
                      dropped := model.dropped - {key});
      OnlyKeyKeepsFlags@Ready(key);
    }

    /** Nothing about the flags changed. */
    twostate lemma SameFlags()
      requires old(Flags()) && pages == old(pages) && forall i :: 0 <= i < |pages| ==> unchanged(pages[i])
      requires model.pages == old(model.pages) && model.notified == old(model.notified)
      requires model.completed == old(model.completed) && model.dropped == old(model.dropped)
      ensures Flags()
    {
      forall k | 0 <= k < PAGE * |pages|
        ensures Agrees(k)
      {
        assert old(Agrees(k));
      }
    }

    lemma FlagsCovered()
      requires Inv(model) && |pages| == model.pages
      ensures Covered()
    {
      forall k | k in Tasks(model)
        ensures k < PAGE * |pages|
      {
        assert TaskOk(model, k);
      }
    }

    /** The first half of `Inner::insert`: a place in the slab. */
    method Allocate(t: Task) returns (key: Option<nat>)
      requires Shell()
      modifies slab, slab.slots, `model, `repr
      ensures Shell() && Grown()
      ensures model == old(model).(slab := model.slab)
      ensures SlabModel.Insert(old(model.slab), t) ==
        if key.Some? then Inserted(model.slab, key.value) else Refused
      ensures key.None? ==> model == old(model)
    {
      var k := slab.Insert(t);
      key := if k.Some? then Some(k.value) else None;
      repr := repr + (set a | a in slab.slots);
      model := model.(slab := slab.View());
      SameFlags();
    }

    /** The second half, with the new pages owned and the task numbered. */
    method Enlist(key: nat)
      requires Shell() && Covered()
      modifies repr
      ensures Shell() && Grown()
      ensures model == old(model).(
        pages := if key < PAGE * old(model).pages then old(model).pages else key / PAGE + 1,
        notified := old(model).notified + {key},
        completed := old(model).completed - {key},
        dropped := old(model).dropped - {key},
        spawned := old(model).spawned + 1,
        issued := old(model).issued + {key},
        due := old(model).due + {old(model).spawned})
    {
      Register(key);
      assert slab.Valid();
      label Registered:
      repr := repr + (set p | p in pages);
      spawned := spawned + 1;
      model := model.(spawned := spawned, issued := model.issued + {key}, due := model.due + {model.spawned});
      SameFlags@Registered();
    }

    /** `Inner::insert`. */
    method InsertTask(kind: Kind) returns (r: Option<nat>)
      requires Shell() && Covered()
      modifies repr
      ensures Shell() && Grown()
      ensures model == SchedulerModel.Insert(old(model), kind).s
      ensures r == SchedulerModel.Insert(old(model), kind).key
    {
      r := Allocate(Task(spawned, kind, false));
      if r.Some? {
        Enlist(r.value);
      }
    }

    /** `Inner::insert`, on a scheduler in good order. */
    method InsertKey(kind: Kind) returns (r: Option<nat>)
      requires Valid()
      modifies repr
      ensures Valid() && Grown()
      ensures model == SchedulerModel.Insert(old(model), kind).s
      ensures r == SchedulerModel.Insert(old(model), kind).key
      ensures r.Some? ==> r.value in model.issued
    {
      InsertKeeps(model, kind);
      FlagsCovered();
      r := InsertTask(kind);
    }

    /** `Scheduler::insert`: a handle that owns the new task's key and knows its page. */
    method Insert(kind: Kind) returns (h: Option<SchedulerHandle>)
      requires Valid()
      modifies repr
      ensures Valid() && Grown()
      ensures model == SchedulerModel.Insert(old(model), kind).s
      ensures h.Some? <==> SchedulerModel.Insert(old(model), kind).key.Some?
      ensures h.Some? ==> fresh(h.value) && h.value !in repr
      ensures h.Some? ==> h.value.key == SchedulerModel.Insert(old(model), kind).key
      ensures h.Some? ==> Paged(h.value.key.value) && h.value.chunk == pages[h.value.key.value / PAGE]
    {
      var key := InsertKey(kind);
      if key.None? {
        return None;
      }
      IssuedIsPaged(key.value);
      var page, _ := GetPage(key.value);
      var handle := new SchedulerHandle(key.value, page);
      h := Some(handle);
    }

    /** The body of one effect. */
    method Perform(e: Effect)
      requires Valid() && SchedulerModel.Perform(model, e).legal
      modifies repr
      ensures Valid() && Grown()
      ensures model == SchedulerModel.Perform(old(model), e)
    {
      match e
      case Spawn(kind) => var _ := Insert(kind); // the handle stays with whoever started the task
      case Wake(key) => Wake(key);
      case Cancel(key) => Cancel(key);
    }

    /** What a future does while it is polled, effect by effect. */
    method PerformEffects(es: seq<Effect>)
      requires Valid() && PerformAll(model, es).legal
      modifies repr
      ensures Valid() && Grown()
      ensures model == PerformAll(old(model), es)
    {
      for i := 0 to |es|
        invariant Valid() && Grown()
        invariant PerformAll(model, es[i..]) == PerformAll(old(model), es)
      {
        assert es[i..][0] == es[i] && es[i..][1..] == es[i + 1..];
        Perform(es[i]);
      }
      assert es[|es|..] == [];
    }

    /** The result is stored in the task's cell and the completed bit is set. */
    method StoreResult(key: nat, t: Task)
      requires Shell() && Paged(key) && SlabModel.Get(model.slab, key) == Some(t)
      modifies repr
      ensures Shell() && Grown()
      ensures model == Complete(old(model), key)
    {
      hide Inv, Good, SlabModel.Update;
      slab.Update(key, t.(done := true));
      label Updated:
      hide Flags, PinSlab.Valid, PinSlab.View;
      FlagCompleted(key, Complete(model, key));
      SlabStays@Updated();
    }

    /** The future returned Ready. */
    method Finish(key: nat)
      requires Valid() && key in Tasks(model)
      modifies repr
      ensures Valid() && Grown()
      ensures model == Complete(old(model), key)
    {
      CompleteKeeps(model, key);
      GetIsLookup(model.slab, key);
      assert TaskOk(model, key);
      var t := slab.Get(key);
      StoreResult(key, t.value);
    }

    /** The number of polls goes up before the future runs. */
    method Count(id: nat)
      requires Shell()
      modifies `polls, `polled, `model
      ensures Shell() && Grown()
      ensures model == Charge(old(model), id)
    {
      polls := polls + 1;
      polled := polled + {id};
      model := Charge(model, id);
      SameFlags();
    }

    /** The future runs, and does what it does, before it answers. */
    method RunEffects(id: nat, es: seq<Effect>)
      requires Valid() && id in Ids(model) && PerformAll(Charge(model, id), es).legal
      modifies repr
      ensures Valid() && Grown()
      ensures model == PerformAll(Charge(old(model), id), es)
    {
      ChargeKeeps(model, id);
      Count(id);
      PerformEffects(es);
    }

    /** The poll of one future, once the lookup has found its task. */
    method RunFuture(env: Oracle, key: nat, t: Task)
      requires Valid() && key in Tasks(model) && t == Tasks(model)[key] && !t.done
      requires PerformAll(Charge(model, t.id), env(model.polls, t.id).effects).legal
      modifies repr
      ensures Valid() && Grown()
      ensures var s' := PerformAll(Charge(old(model), t.id), env(old(model).polls, t.id).effects);
        model == if env(old(model).polls, t.id).ready then Complete(s', key) else s'
    {
      var resp := env(polls, t.id);
      RunKeeps(model, key, resp.effects);
      RunEffects(t.id, resp.effects);
      if resp.ready {
        assert SameTask(old(model), model, key);
        Finish(key);
      }
    }

    /** One future is polled. The lookup cannot fail and the future has not completed. */
    method PollTask(env: Oracle, key: nat)
      requires Valid() && key in Tasks(model) && !Tasks(model)[key].done
      requires SchedulerModel.PollTask(model, env, key).legal
      modifies repr
      ensures Valid() && Grown()
      ensures model == SchedulerModel.PollTask(old(model), env, key)
    {
      GetIsLookup(model.slab, key);
      var t := slab.Get(key);
      RunFuture(env, key, t.value);
    }

    // -----------------------------------------------------------------------------------
    // poll
    // -----------------------------------------------------------------------------------

    /** The word of a page is the set of its keys. */
    ghost predicate Word(m: u64, ks: set<nat>, p: nat) {
      forall j :: 0 <= j < PAGE ==> (Bit(m, j) <==> PAGE * p + j in ks)
    }

    /** The two snapshots of a page are taken and its flags cleared. */
    method TakeSnapshots(p: nat) returns (notified: u64, gone: u64)
      requires Shell() && p < |pages|
      modifies `model, pages[p]
      ensures Shell() && model == TakePage(old(model), p)
      ensures Word(notified, Snapshot(old(model), p), p)
      ensures Word(gone, InPage(old(model).dropped, p), p)
    {
      notified := pages[p].TakeNotified();
      gone := pages[p].TakeDropped();
      forall j | 0 <= j < PAGE
        ensures Bit(notified, j) <==> PAGE * p + j in Snapshot(old(model), p)
        ensures Bit(gone, j) <==> PAGE * p + j in InPage(old(model).dropped, p)
      {
        var k := PAGE * p + j;
        assert k / PAGE == p && k % PAGE == j;
        assert old(Agrees(k));
      }
      model := TakePage(model, p);
      forall k | 0 <= k < PAGE * |pages|
        ensures Agrees(k)
      {
        assert old(Agrees(k));
        ZeroBit(k % PAGE);
      }
      assert slab.Valid();
    }

    /** A dropped task leaves. */
    method ReapKey(key: nat)
      requires Shell() && Paged(key) && key in Tasks(model)
      modifies repr
      ensures Shell() && pages == old(pages) && repr == old(repr)
      ensures model == Reap(old(model), key)
    {
      hide Inv, Good, SlabModel.Remove;
      var _ := slab.Remove(key);
      label Removed:
      hide Flags, PinSlab.Valid, PinSlab.View;
      FlagNothing(key, Reap(model, key));
      SlabStays@Removed();
    }

    /** One bit of the notified word. */
    method PollOneBit(env: Oracle, p: nat, notified: u64, ghost mask: set<nat>, i: nat, key: nat)
      requires Valid() && i < PAGE && key == PAGE * p + i && (Bit(notified, i) <==> key in mask)
      requires key in mask ==> key in Tasks(model) && !Tasks(model)[key].done
      requires PollBit(model, env, p, mask, i).legal
      modifies repr
      ensures Valid() && Grown()
      ensures model == PollBit(old(model), env, p, mask, i)
    {
      if Bit(notified, i) {
        PollTask(env, key);
      }
    }

    /** One bit of the notified word, and where it leaves the bits after it. */
    method PollNextBit(env: Oracle, p: nat, notified: u64, ghost mask: set<nat>, i: nat, ghost end: Sched)
      requires Valid() && i < PAGE && Word(notified, mask, p) && Pollable(model, p, mask, i)
      requires PollBits(model, env, p, mask, i) == end && end.legal
      modifies repr
      ensures Valid() && Grown() && Pollable(model, p, mask, i + 1)
      ensures PollBits(model, env, p, mask, i + 1) == end
    {
      var key := PAGE * p + i;
      assert Bit(notified, i) <==> key in mask;
      assert key in mask ==> Ahead(key, p, mask, i);
      PollBitTurns(model, env, p, mask, i);
      PollOneBit(env, p, notified, mask, i, key);
    }

    /** The loop over the notified bits of a page, lowest first. */
    method PollNotified(env: Oracle, p: nat, notified: u64, ghost mask: set<nat>, ghost end: Sched)
      requires Valid() && Word(notified, mask, p) && Pollable(model, p, mask, 0)
      requires PollBits(model, env, p, mask, 0) == end && end.legal
      modifies repr
      ensures Valid() && Grown() && PollBits(model, env, p, mask, PAGE) == end
    {
      hide Valid, Word, Pollable, PollBits;
      for i := 0 to PAGE
        invariant Valid() && Grown() && Pollable(model, p, mask, i)
        invariant PollBits(model, env, p, mask, i) == end
      {
        PollNextBit(env, p, notified, mask, i, end);
      }
    }

    /** One bit of the dropped word. */
    method ReapOneBit(p: nat, gone: u64, ghost mask: set<nat>, i: nat)
      requires Valid() && i < PAGE && Word(gone, mask, p) && Reapable(mask, p, i) <= Tasks(model).Keys
      modifies repr
      ensures Valid() && pages == old(pages) && repr == old(repr)
      ensures Reapable(mask, p, i + 1) <= Tasks(model).Keys
      ensures model == ReapBit(old(model), p, mask, i)
    {
      var key := PAGE * p + i;
      assert Bit(gone, i) <==> key in mask;
      ReapableStep(mask, p, i, key);
      ReapBitLeaves(model, p, mask, i, key);
      LeftInv(model, ReapBit(model, p, mask, i), ReapableAt(mask, i, key));
      if Bit(gone, i) && i != 0 {
        assert TaskOk(model, key);
        hide Inv, Good, TaskOk;
        assert ReapBit(model, p, mask, i) == Reap(model, key);
        ReapKey(key);
      }
    }

    /** The loop over the dropped bits of a page, which skips bit 0. */
    method ReapDropped(p: nat, gone: u64, ghost mask: set<nat>)
      requires Valid() && Word(gone, mask, p) && Reapable(mask, p, 0) <= Tasks(model).Keys
      modifies repr
      ensures Valid() && pages == old(pages) && repr == old(repr)
      ensures model == ReapBits(old(model), p, mask, 0)
    {
      ghost var end := ReapBits(model, p, mask, 0);
      for i := 0 to PAGE
        invariant Valid() && pages == old(pages) && repr == old(repr)
        invariant Reapable(mask, p, i) <= Tasks(model).Keys
        invariant ReapBits(model, p, mask, i) == end
      {
        ReapOneBit(p, gone, mask, i);
      }
    }

    /** One page of `poll`. */
    method PollPage(env: Oracle, p: nat)
      requires Valid() && Unpolled(model, p) && p < |pages| && SchedulerModel.PollPage(model, env, p).legal
      modifies repr
      ensures Valid() && Grown()
      ensures model == SchedulerModel.PollPage(old(model), env, p)
    {
      ghost var s, mask := model, Snapshot(model, p);
      TakePageKeeps(s, p);
      SnapshotPollable(s, p);
      assert PollBits(TakePage(s, p), env, p, mask, 0).legal;
      PollBitsTurns(TakePage(s, p), env, p, mask, 0);
      var notified, gone := TakeSnapshots(p);
      PollNotified(env, p, notified, mask, PollBits(model, env, p, mask, 0));
      DoomedLive(s, model, p);
      ReapDropped(p, gone, InPage(s.dropped, p));
    }

    /** One page of `poll`, and where it leaves the pages after it. */
    method PollNext(env: Oracle, p: nat, n: nat, ghost end: Sched)
      requires Valid() && Unpolled(model, p) && p < n <= |pages|
      requires PollPages(model, env, p, n) == end && end.legal
      modifies repr
      ensures Valid() && Grown() && Unpolled(model, p + 1)
      ensures PollPages(model, env, p + 1, n) == end
    {
      PageStep(model, env, p);
      PollPage(env, p);
    }

    /** The loop over the pages that exist when `poll` is called. */
    method PollAll(env: Oracle, n: nat, ghost end: Sched)
      requires Valid() && Unpolled(model, 0) && n <= |pages|
      requires PollPages(model, env, 0, n) == end && end.legal
      modifies repr
      ensures Valid() && Grown() && PollPages(model, env, n, n) == end
    {
      hide Valid, Unpolled, PollPages;
      for p := 0 to n
        invariant Valid() && Grown() && Unpolled(model, p)
        invariant PollPages(model, env, p, n) == end
      {
        PollNext(env, p, n, end);
      }
    }

    /** `Scheduler::poll`. */
    method Poll(env: Oracle)
      requires Valid() && SchedulerModel.Poll(model, env).legal
      modifies repr
      ensures Valid() && Grown()
      ensures model == SchedulerModel.Poll(old(model), env)
    {
      BeginKeeps(model);
      polled := {};
      model := Begin(model);
      SameFlags();
      PollAll(env, |pages|, SchedulerModel.Poll(old(model), env));
    }

    // -----------------------------------------------------------------------------------
    // Handles
    // -----------------------------------------------------------------------------------

    /** `from_raw_handle`: a handle for a key that names a live task, else nothing. */
    method FromRawHandle(key: usize) returns (h: Option<SchedulerHandle>)
      requires Valid()
      ensures h.Some? <==> key in Tasks(model)
      ensures h.Some? ==> fresh(h.value) && h.value.key == Some(key)
      ensures h.Some? ==> key / PAGE < |pages| && h.value.chunk == pages[key / PAGE]
    {
      GetIsLookup(model.slab, key);
      var t := slab.Get(key);
      if t == None {
        return None;
      }
      assert TaskOk(model, key);
      var page, _ := GetPage(key);
      var handle := new SchedulerHandle(key, page);
      h := Some(handle);
    }

    /** The flags and the slab entry of a task are removed. */
    method RemoveTask(key: nat) returns (t: Task)
      requires Shell() && Paged(key) && key in Tasks(model) && key !in model.dropped
      modifies repr
      ensures Shell() && pages == old(pages) && repr == old(repr)
      ensures model == SchedulerModel.Take(old(model), key) && t == Tasks(old(model))[key]
    {
      RemoveIsLookup(model.slab, key);
      hide Inv, Good;
      ghost var end := SchedulerModel.Take(model, key);
      hide SlabModel.Remove, Flags, PinSlab.Valid, PinSlab.View;
      FlagNothing(key, end.(slab := model.slab));
      SlabStays();
      label Cleared:
      var v := slab.RemoveUnpin(key);
      t := v.value;
      model := end;
      SameFlags@Cleared();
    }

    lemma RemoveIsLookup(s: Slab<Task>, key: nat)
      requires Good(s) && key in Contents(s)
      ensures SlabModel.Remove(s, key).removed == Some(Contents(s)[key])
    {
      GetIsLookup(s, key);
    }

    /** The middle of `take`: the assertion on the dropped bit, and the removal. */
    method TakeUndropped(key: nat) returns (t: Option<Task>)
      requires Valid() && key in Tasks(model)
      modifies repr
      ensures Valid() && pages == old(pages) && repr == old(repr)
      ensures t.None? <==> key in old(model).dropped
      ensures t.None? ==> model == old(model)
      ensures t.Some? ==> t.value == Tasks(old(model))[key] && model == SchedulerModel.Take(old(model), key)
    {
      assert TaskOk(model, key);
      var page, ix := GetPage(key);
      var gone := page.WasDropped(ix);
      if gone {
        return None;
      }
      TakeKeeps(model, key);
      hide Inv, Flags, PinSlab.Valid, SchedulerModel.Take;
      var task := RemoveTask(key);
      t := Some(task);
    }

    /**
     `take`: a live task is handed out and forgotten. Nothing stands for its assertion that the
     task was not dropped. Either way the key is out of the handle before its destructor runs.
     */
    method Take(handle: SchedulerHandle) returns (t: Option<Task>)
      requires Valid() && handle !in repr && handle.key.Some? && handle.chunk in pages
      requires handle.key.value in Tasks(model)
      modifies repr, handle`key
      ensures Valid() && pages == old(pages) && repr == old(repr) && handle.key == None
      ensures t.None? <==> old(handle.key).value in old(model).dropped
      ensures t.Some? ==> t.value == Tasks(old(model))[old(handle.key).value]
      ensures t.Some? ==>
        model == SchedulerModel.Destroy(SchedulerModel.Take(old(model), old(handle.key).value),
                                        KeyTaken(Handle(old(handle.key))))
      ensures t.None? ==> model == SchedulerModel.Destroy(old(model), KeyTaken(Handle(old(handle.key))))
    {
      hide Inv, SchedulerModel.Take, PinSlab.Valid, Flags;
      var k := handle.TakeKey();
      t := TakeUndropped(k.value);
      Destroy(handle);
    }
  }
}
