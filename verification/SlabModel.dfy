/**
 The slab as a value: its cells in key order, its length and the head of its free chain.
 The class `PinSlab` refines these functions over slots of arrays.
 */
module SlabModel {
  import opened Options
  import opened KeySpace

  /** Vacant entries point to the next vacant one. */
  datatype Entry<+T> = Unused | Vacant(next: nat) | Occupied(value: T)

  datatype Slab<+T> = Slab(cells: seq<Entry<T>>, len: nat, next: nat)

  /** `Unreachable` stands for the `unreachable!` arm of `insert_at`. */
  datatype InsertResult<+T> =
    | Inserted(slab: Slab<T>, key: nat)
    | Refused
    | Unreachable

  datatype RemoveResult<+T> = RemoveResult(slab: Slab<T>, removed: Option<T>)

  function Empty<T>(): (s: Slab<T>) {
    Slab([], 0, 0)
  }

  /** `new_slot` followed by the store into the slot's FIRST cell. */
  function FreshSlot<T>(val: T, n: nat): (r: seq<Entry<T>>)
    requires n > 0
    ensures |r| == n && r[0] == Occupied(val)
    ensures forall i :: 1 <= i < n ==> r[i] == Unused
  {
    [Occupied(val)] + seq(n - 1, _ => Unused)
  }

  /** The slab after occupying an allocated cell. */
  function Fill<T>(s: Slab<T>, val: T, next: nat): (r: Slab<T>)
    requires s.next < |s.cells|
  {
    Slab(s.cells[s.next := Occupied(val)], s.len + 1, next)
  }

  /** The slab after pushing a new slot of `n` cells and occupying its first one. */
  function Grow<T>(s: Slab<T>, val: T, n: nat): (r: Slab<T>)
    requires n > 0
  {
    Slab(s.cells + FreshSlot(val, n), s.len + 1, s.next + 1)
  }

  /** `insert`: `insert_at` at `next`. */
  function Insert<T>(s: Slab<T>, val: T): (r: InsertResult<T>) {
    var key := s.next;
    if key >= KEY_LIMIT then Refused
    else if key < |s.cells| then
      match s.cells[key]
      case Unused => Inserted(Fill(s, val, key + 1), key)
      case Vacant(n) => Inserted(Fill(s, val, n), key)
      case Occupied(_) => Unreachable
    else
      Inserted(Grow(s, val, SlotLength(key)), key)
  }

  /** `get`. */
  function Get<T>(s: Slab<T>, key: nat): (r: Option<T>) {
    if key < KEY_LIMIT && key < |s.cells| && s.cells[key].Occupied? then Some(s.cells[key].value) else None
  }

  /** `remove` and `remove_unpin` leave the same slab; only what they return differs. */
  function Remove<T>(s: Slab<T>, key: nat): (r: RemoveResult<T>) {
    if Get(s, key).Some? then
      RemoveResult(
        Slab(s.cells[key := Vacant(s.next)], if s.len == 0 then 0 else s.len - 1, key),
        Some(s.cells[key].value))
    else RemoveResult(s, None)
  }

  /** A write through `get_pin_mut`. */
  function Update<T>(s: Slab<T>, key: nat, val: T): (r: Slab<T>)
    requires Get(s, key).Some?
  {
    s.(cells := s.cells[key := Occupied(val)])
  }

  /** The finite map the slab implements. */
  ghost function Contents<T>(s: Slab<T>): (m: map<nat, T>) {
    map k: nat | k < |s.cells| && s.cells[k].Occupied? :: s.cells[k].value
  }

  // -------------------------------------------------------------------------------------
  // The unwritten invariant
  // -------------------------------------------------------------------------------------

  /** The free chain in order, the high-water mark and the number of allocated slots. */
  datatype Shape = Shape(free: seq<nat>, high: nat, slots: nat)

  /**
   Following the vacant entries from `from` visits exactly the keys of `free`, in order and
   each once, and ends at the mark `high`.
   */
  ghost predicate Chain<T>(cells: seq<Entry<T>>, from: nat, free: seq<nat>, high: nat)
    decreases |free|
  {
    if free == [] then from == high
    else
      && from == free[0] < high
      && from < |cells|
      && cells[from].Vacant?
      && from !in free[1..]
      && Chain(cells, cells[from].next, free[1..], high)
  }

  /** Below the mark every entry is occupied or on the chain; above it none was ever used. */
  ghost predicate Divided<T>(cells: seq<Entry<T>>, free: seq<nat>, high: nat) {
    && high <= |cells|
    && (forall k :: 0 <= k < high ==> cells[k].Occupied? || (cells[k].Vacant? && k in free))
    && (forall k :: high <= k < |cells| ==> cells[k] == Unused)
  }

  /** Whole slots are allocated, and the last one only because the mark passed the others. */
  ghost predicate Sized(n: nat, high: nat, slots: nat) {
    && n == SlotStart(slots) <= KEY_LIMIT
    && (slots > 0 ==> SlotStart(slots - 1) < high)
  }

  ghost predicate WellFormed<T>(s: Slab<T>, h: Shape) {
    && Chain(s.cells, s.next, h.free, h.high)
    && Divided(s.cells, h.free, h.high)
    && Sized(|s.cells|, h.high, h.slots)
    && s.len + |h.free| == h.high
  }

  ghost predicate Good<T>(s: Slab<T>) {
    exists h :: WellFormed(s, h)
  }

  // -------------------------------------------------------------------------------------
  // Every operation keeps it
  // -------------------------------------------------------------------------------------

  /** The chain survives any change outside it. */
  lemma {:induction false} ChainFrame<T>(cells: seq<Entry<T>>, cells': seq<Entry<T>>, from: nat, free: seq<nat>,
                                         high: nat)
    requires Chain(cells, from, free, high)
    requires forall k :: k in free && 0 <= k < |cells| ==> k < |cells'| && cells'[k] == cells[k]
    ensures Chain(cells', from, free, high)
    decreases |free|
  {
    if free != [] {
      assert free[0] in free;
      assert forall k :: k in free[1..] ==> k in free;
      ChainFrame(cells, cells', cells[from].next, free[1..], high);
    }
  }

  /** The keys on the chain are vacant, below the mark and counted by its length. */
  lemma {:induction false} ChainMembers<T>(cells: seq<Entry<T>>, from: nat, free: seq<nat>, high: nat)
    requires Chain(cells, from, free, high)
    ensures forall k :: k in free ==> k < high && k < |cells| && cells[k].Vacant?
    ensures |Elements(free)| == |free|
    decreases |free|
  {
    if free != [] {
      assert free == [free[0]] + free[1..];
      ChainMembers(cells, cells[from].next, free[1..], high);
    }
  }

  ghost function Elements(ks: seq<nat>): (r: set<nat>)
    ensures forall k :: k in r <==> k in ks
  {
    if ks == [] then {} else {ks[0]} + Elements(ks[1..])
  }

  /** The keys below `n`. */
  ghost function Below(n: nat): (r: set<nat>)
    ensures forall k :: k in r <==> 0 <= k < n
    ensures |r| == n
  {
    if n == 0 then {} else Below(n - 1) + {n - 1}
  }

  /** Inserting when the chain is not empty takes its first key. */
  lemma ReuseKeepsShape<T>(s: Slab<T>, h: Shape, val: T)
    requires WellFormed(s, h) && h.free != []
    ensures s.next == h.free[0] < |s.cells| && s.cells[s.next].Vacant?
    ensures WellFormed(Fill(s, val, s.cells[s.next].next), h.(free := h.free[1..]))
  {
    var s', free' := Fill(s, val, s.cells[s.next].next), h.free[1..];
    ChainFrame(s.cells, s'.cells, s'.next, free', h.high);
    assert h.free == [s.next] + free';
    assert Divided(s'.cells, free', h.high);
  }

  /** Inserting when the chain is empty but the last slot has room: the cell at the mark. */
  lemma AdvanceKeepsShape<T>(s: Slab<T>, h: Shape, val: T)
    requires WellFormed(s, h) && h.free == [] && h.high < |s.cells|
    ensures s.next == h.high && s.cells[h.high] == Unused
    ensures WellFormed(Fill(s, val, h.high + 1), h.(high := h.high + 1))
  {
    assert Divided(Fill(s, val, h.high + 1).cells, [], h.high + 1);
    assert Sized(|s.cells|, h.high + 1, h.slots);
  }

  /** When every cell is used, the next key names the slot after the last one, at offset 0. */
  lemma NewSlotLocation(n: nat, high: nat, slots: nat)
    requires Sized(n, high, slots) && n < KEY_LIMIT
    ensures n + SlotSize(slots) <= KEY_LIMIT
    ensures CalculateKey(n) == Some(Location(slots, 0, SlotSize(slots)))
    ensures SlotLength(n) == SlotSize(slots)
  {
    SlotFits(slots);
    KeyAt(slots, 0, n);
    LengthOf(n);
  }

  lemma GrownDivided<T>(cells: seq<Entry<T>>, slot: seq<Entry<T>>, val: T)
    requires Divided(cells, [], |cells|) && |slot| > 0 && slot[0] == Occupied(val)
    requires forall i :: 1 <= i < |slot| ==> slot[i] == Unused
    ensures Divided(cells + slot, [], |cells| + 1)
  {
  }

  /** Inserting when every cell is used: a new slot, whose first cell is the one to write. */
  lemma GrowKeepsShape<T>(s: Slab<T>, h: Shape, val: T)
    requires WellFormed(s, h) && h.free == [] && h.high == |s.cells|
    requires |s.cells| + SlotSize(h.slots) <= KEY_LIMIT
    ensures s.next == |s.cells|
    ensures WellFormed(Grow(s, val, SlotSize(h.slots)), h.(high := h.high + 1, slots := h.slots + 1))
  {
    GrownDivided(s.cells, FreshSlot(val, SlotSize(h.slots)), val);
    assert SlotStart(h.slots + 1) == SlotStart(h.slots) + SlotSize(h.slots);
  }

  /** Which of the three ways `insert` takes on a well-formed slab. */
  lemma InsertCases<T>(s: Slab<T>, h: Shape, val: T)
    requires WellFormed(s, h)
    ensures h.free != [] ==> Insert(s, val) == Inserted(Fill(s, val, s.cells[s.next].next), s.next)
    ensures h.free == [] && h.high < |s.cells| ==> Insert(s, val) == Inserted(Fill(s, val, h.high + 1), s.next)
    ensures h.free == [] && h.high == |s.cells| ==>
      if h.high < KEY_LIMIT then Insert(s, val) == Inserted(Grow(s, val, SlotSize(h.slots)), s.next)
      else Insert(s, val) == Refused
  {
    if h.high == |s.cells| < KEY_LIMIT {
      NewSlotLocation(|s.cells|, h.high, h.slots);
    }
  }

  /** `insert` on a well-formed slab: never the unreachable arm, refused only when full. */
  lemma InsertKeepsShape<T>(s: Slab<T>, h: Shape, val: T) returns (h': Shape)
    requires WellFormed(s, h)
    ensures Insert(s, val) != Unreachable
    ensures Insert(s, val) == Refused <==> s.len == KEY_LIMIT
    ensures Insert(s, val).Inserted? ==> WellFormed(Insert(s, val).slab, h')
    ensures h'.high == if h.free == [] && Insert(s, val).Inserted? then h.high + 1 else h.high
    ensures h'.slots == if |s.cells| <= s.next < KEY_LIMIT then h.slots + 1 else h.slots
  {
    InsertCases(s, h, val);
    if h.free != [] {
      ReuseKeepsShape(s, h, val);
      h' := h.(free := h.free[1..]);
    } else if h.high < |s.cells| {
      AdvanceKeepsShape(s, h, val);
      h' := h.(high := h.high + 1);
    } else if h.high < KEY_LIMIT {
      NewSlotLocation(|s.cells|, h.high, h.slots);
      GrowKeepsShape(s, h, val);
      h' := h.(high := h.high + 1, slots := h.slots + 1);
    } else {
      h' := h;
    }
  }

  /** A key put back at the head of the chain. */
  lemma PushFreeChain<T>(cells: seq<Entry<T>>, next: nat, free: seq<nat>, high: nat, key: nat)
    requires Chain(cells, next, free, high)
    requires key < |cells| && cells[key].Occupied? && key < high
    ensures Chain(cells[key := Vacant(next)], key, [key] + free, high)
    ensures |free| < high
  {
    ChainMembers(cells, next, free, high);
    FreeBelowMark(free, high, key);
    ChainFrame(cells, cells[key := Vacant(next)], next, free, high);
    assert ([key] + free)[1..] == free;
  }

  lemma PushFreeDivided<T>(cells: seq<Entry<T>>, next: nat, free: seq<nat>, high: nat, key: nat)
    requires Divided(cells, free, high)
    requires key < |cells| && cells[key].Occupied?
    ensures key < high
    ensures Divided(cells[key := Vacant(next)], [key] + free, high)
  {
  }

  /** Removing a live key puts it at the head of the chain. */
  lemma RemoveKeepsShape<T>(s: Slab<T>, h: Shape, key: nat)
    requires WellFormed(s, h) && Get(s, key).Some?
    ensures WellFormed(Remove(s, key).slab, h.(free := [key] + h.free))
    ensures s.len > 0
  {
    PushFreeDivided(s.cells, s.next, h.free, h.high, key);
    PushFreeChain(s.cells, s.next, h.free, h.high, key);
  }

  /** Distinct keys below a bound that miss one of them are fewer than the bound. */
  lemma FreeBelowMark(ks: seq<nat>, bound: nat, missing: nat)
    requires |Elements(ks)| == |ks| && missing < bound
    requires forall k :: k in ks ==> k < bound
    requires missing !in ks
    ensures |ks| < bound
  {
    SubsetCard(Elements(ks) + {missing}, Below(bound));
  }

  lemma {:induction false} SubsetCard<T>(a: set<T>, b: set<T>)
    requires a <= b
    ensures |a| <= |b|
  {
    if a != {} {
      var x :| x in a;
      SubsetCard(a - {x}, b - {x});
    }
  }

  // -------------------------------------------------------------------------------------
  // The slab refines a finite map
  // -------------------------------------------------------------------------------------

  /** The live keys are those below the mark that are not on the chain. */
  lemma LiveKeys<T>(s: Slab<T>, free: seq<nat>, high: nat)
    requires Divided(s.cells, free, high)
    requires forall k :: k in free ==> k < high && s.cells[k].Vacant?
    ensures Contents(s).Keys == Below(high) - Elements(free)
    ensures Elements(free) <= Below(high)
  {
  }

  /** `len` counts the live entries. */
  lemma LenIsSize<T>(s: Slab<T>, h: Shape)
    requires WellFormed(s, h)
    ensures s.len == |Contents(s)|
  {
    ChainMembers(s.cells, s.next, h.free, h.high);
    LiveKeys(s, h.free, h.high);
    assert |Below(h.high) - Elements(h.free)| == h.high - |h.free|;
    assert |Contents(s)| == |Contents(s).Keys|;
  }

  /** `get` agrees with the map on every key. */
  lemma GetIsLookup<T>(s: Slab<T>, key: nat)
    requires Good(s)
    ensures Get(s, key) == if key in Contents(s) then Some(Contents(s)[key]) else None
  {
    var h :| WellFormed(s, h);
  }

  /** What one insertion does to the cells: one cell becomes occupied, at a key that was not. */
  ghost predicate Binds<T>(cells: seq<Entry<T>>, cells': seq<Entry<T>>, key: nat, val: T) {
    && |cells| <= |cells'|
    && key < |cells'|
    && cells'[key] == Occupied(val)
    && (key < |cells| ==> !cells[key].Occupied?)
    && (forall k :: 0 <= k < |cells| && k != key ==> cells'[k] == cells[k])
    && (forall k :: |cells| <= k < |cells'| && k != key ==> cells'[k] == Unused)
  }

  lemma InsertBinds<T>(s: Slab<T>, h: Shape, val: T)
    requires WellFormed(s, h) && Insert(s, val).Inserted?
    ensures Binds(s.cells, Insert(s, val).slab.cells, Insert(s, val).key, val)
  {
    if h.free == [] && h.high == |s.cells| {
      NewSlotLocation(|s.cells|, h.high, h.slots);
    }
  }

  lemma BindsUpdatesMap<T>(s: Slab<T>, s': Slab<T>, key: nat, val: T)
    requires Binds(s.cells, s'.cells, key, val)
    ensures key !in Contents(s)
    ensures Contents(s') == Contents(s)[key := val]
  {
  }

  /**
   `insert` binds a key that was free and nothing else; every other cell is the same entry
   at the same key; refusal happens only when the key space is exhausted.
   */
  lemma InsertRefinesMap<T>(s: Slab<T>, val: T)
    requires Good(s)
    ensures Insert(s, val) != Unreachable
    ensures Insert(s, val) == Refused <==> |Contents(s)| == KEY_LIMIT
    ensures Insert(s, val).Inserted? ==>
      var Inserted(s', key) := Insert(s, val);
      && key !in Contents(s) && key < KEY_LIMIT
      && Contents(s') == Contents(s)[key := val]
      && Binds(s.cells, s'.cells, key, val)
      && Good(s')
  {
    var h :| WellFormed(s, h);
    var h' := InsertKeepsShape(s, h, val);
    LenIsSize(s, h);
    if Insert(s, val).Inserted? {
      var Inserted(s', key) := Insert(s, val);
      InsertBinds(s, h, val);
      BindsUpdatesMap(s, s', key, val);
      assert Good(s');
    }
  }

  /** `remove` unbinds exactly its key, hands back what was there, and alters no other cell. */
  lemma RemoveRefinesMap<T>(s: Slab<T>, key: nat)
    requires Good(s)
    ensures var r := Remove(s, key);
      && r.removed == (if key in Contents(s) then Some(Contents(s)[key]) else None)
      && Contents(r.slab) == Contents(s) - {key}
      && Good(r.slab)
      && |r.slab.cells| == |s.cells|
      && forall k :: 0 <= k < |s.cells| && k != key ==> r.slab.cells[k] == s.cells[k]
  {
    var h :| WellFormed(s, h);
    GetIsLookup(s, key);
    if Get(s, key).Some? {
      RemoveKeepsShape(s, h, key);
      assert Good(Remove(s, key).slab);
    }
  }

  lemma UpdateKeepsShape<T>(s: Slab<T>, h: Shape, key: nat, val: T)
    requires WellFormed(s, h) && Get(s, key).Some?
    ensures WellFormed(Update(s, key, val), h)
  {
    ChainMembers(s.cells, s.next, h.free, h.high);
    ChainFrame(s.cells, s.cells[key := Occupied(val)], s.next, h.free, h.high);
  }

  lemma UpdateRefinesMap<T>(s: Slab<T>, key: nat, val: T)
    requires Good(s) && Get(s, key).Some?
    ensures Good(Update(s, key, val))
    ensures Contents(Update(s, key, val)) == Contents(s)[key := val]
  {
    var h :| WellFormed(s, h);
    UpdateKeepsShape(s, h, key, val);
  }

  lemma EmptyIsGood<T>()
    ensures Good(Empty<T>()) && Contents(Empty<T>()) == map[]
  {
    assert WellFormed(Empty<T>(), Shape([], 0, 0));
  }

  // -------------------------------------------------------------------------------------
  // Every run
  // -------------------------------------------------------------------------------------

  datatype Op<+T> = DoInsert(val: T) | DoRemove(key: nat)

  /** One operation; the unreachable arm would abort the run. */
  function Apply<T>(s: Option<Slab<T>>, op: Op<T>): (r: Option<Slab<T>>) {
    if s.None? then None
    else match op
      case DoInsert(v) =>
        (match Insert(s.value, v)
         case Inserted(s', _) => Some(s')
         case Refused => s
         case Unreachable => None)
      case DoRemove(k) => Some(Remove(s.value, k).slab)
  }

  function Run<T>(ops: seq<Op<T>>): (r: Option<Slab<T>>) {
    if ops == [] then Some(Empty()) else Apply(Run(ops[..|ops| - 1]), ops[|ops| - 1])
  }

  /** The largest number of entries live at once over the run. */
  ghost function Peak<T>(ops: seq<Op<T>>): (n: nat) {
    if ops == [] then 0
    else
      var before := Peak(ops[..|ops| - 1]);
      var now := if Run(ops).Some? then |Contents(Run(ops).value)| else 0;
      if now > before then now else before
  }

  /**
   Every run from the empty slab: the unreachable arm is never taken, the invariant holds,
   and the high-water mark is the peak number of simultaneously live entries.
   */
  lemma {:induction false} EveryRun<T>(ops: seq<Op<T>>) returns (h: Shape)
    ensures Run(ops).Some?
    ensures WellFormed(Run(ops).value, h)
    ensures h.high == Peak(ops)
  {
    if ops == [] {
      h := Shape([], 0, 0);
    } else {
      var op := ops[|ops| - 1];
      var h0 := EveryRun(ops[..|ops| - 1]);
      var s0 := Run(ops[..|ops| - 1]).value;
      h := h0;
      match op {
        case DoInsert(v) =>
          h := InsertKeepsShape(s0, h0, v);
          if Insert(s0, v) == Refused {
            h := h0;
          }
        case DoRemove(k) =>
          if Get(s0, k).Some? {
            RemoveKeepsShape(s0, h0, k);
            h := h0.(free := [k] + h0.free);
          }
      }
      LenIsSize(Run(ops).value, h);
    }
  }

  /** Memory is bounded by the peak: at most one slot beyond what the peak needed. */
  lemma CapacityBoundedByPeak<T>(ops: seq<Op<T>>)
    ensures Run(ops).Some?
    ensures Peak(ops) == 0 <==> Run(ops).value.cells == []
    ensures Peak(ops) > 0 ==>
      var cap := |Run(ops).value.cells|;
      Peak(ops) <= cap && (cap <= 16 || cap <= 2 * (Peak(ops) - 1))
  {
    var h := EveryRun(ops);
    if h.slots > 1 {
      SlotStartIsPower(h.slots);
      SlotStartIsPower(h.slots - 1);
    }
  }

  /** Keys come back last in, first out: an insert right after a removal reuses its key. */
  lemma RemovedKeyIsReusedFirst<T>(s: Slab<T>, key: nat, val: T)
    requires Good(s) && key in Contents(s)
    ensures Insert(Remove(s, key).slab, val).Inserted?
    ensures Insert(Remove(s, key).slab, val).key == key
    ensures Insert(Remove(s, key).slab, val).slab == Update(s, key, val)
  {
    var h :| WellFormed(s, h);
    GetIsLookup(s, key);
    RemoveKeepsShape(s, h, key);
    assert Insert(Remove(s, key).slab, val).slab.cells == Update(s, key, val).cells;
  }
}
