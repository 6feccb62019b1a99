/** The slab over immovable slots: a growing sequence of arrays, each twice the last. */
module PinSlabs {
  import opened Options
  import opened KeySpace
  import opened SlabModel

  class PinSlab<T> {
    var slots: seq<array<Entry<T>>>
    var len: nat
    var next: usize

    /** The cells of all slots in key order, and the shape of the free chain. */
    ghost var cells: seq<Entry<T>>
    ghost var shape: Shape

    /** The i-th slot holds its stretch of the cells. */
    ghost predicate Holds(i: nat, a: array<Entry<T>>)
      reads `cells, a
    {
      && a.Length == SlotSize(i)
      && SlotStart(i) + SlotSize(i) <= |cells|
      && forall o :: 0 <= o < a.Length ==> a[o] == cells[SlotStart(i) + o]
    }

    /** The slots are the cells, laid end to end; no two slots share memory. */
    ghost predicate Laid()
      reads `slots, `cells, slots
    {
      && |cells| == SlotStart(|slots|) <= KEY_LIMIT
      && (forall i, j :: 0 <= i < j < |slots| ==> slots[i] != slots[j])
      && (forall i :: 0 <= i < |slots| ==> Holds(i, slots[i]))
    }

    ghost function View(): (s: Slab<T>)
      reads this
    {
      Slab(cells, len, next)
    }

    ghost predicate Valid()
      reads this, slots
    {
      && Laid()
      && shape.slots == |slots|
      && WellFormed(View(), shape)
    }

    /** Nothing outside the slab and its slots matters to it. */
    twostate lemma Stays()
      requires old(Valid()) && unchanged(this) && forall a :: a in slots ==> unchanged(a)
      ensures Valid() && View() == old(View())
    {
      forall i | 0 <= i < |slots|
        ensures Holds(i, slots[i])
      {
        assert slots[i] in slots;
        assert old(Holds(i, slots[i]));
      }
    }

    constructor ()
      ensures Valid() && View() == Empty() && fresh(slots)
    {
      slots := [];
      len := 0;
      next := 0;
      cells := [];
      shape := Shape([], 0, 0);
    }

    /** A location names the key's cell, or the first cell of the slot to allocate. */
    ghost predicate Placed(key: nat, l: Location)
      reads `slots, `cells, slots
    {
      && key == SlotStart(l.slot) + l.offset
      && (l.slot < |slots| <==> key < |cells|)
      && (l.slot < |slots| ==> l.offset < slots[l.slot].Length && slots[l.slot][l.offset] == cells[key])
      && (key == |cells| ==> l == Location(|slots|, 0, SlotSize(|slots|)) && l.len == SlotLength(key))
    }

    /** Where the code looks for a key is where the key's cell is. */
    lemma Locate(key: usize)
      requires Laid() && key < KEY_LIMIT
      ensures CalculateKey(key).Some? && Placed(key, CalculateKey(key).value)
    {
      LocationOf(key);
      var l := CalculateKey(key).value;
      if l.slot < |slots| {
        assert Holds(l.slot, slots[l.slot]);
      } else {
        SlotStartMonotone(|slots|, l.slot);
        if key == |cells| {
          SlotsDisjoint(|slots|, 0, l.slot, l.offset);
          LengthOf(key);
        }
      }
    }

    method Get(key: usize) returns (r: Option<T>)
      requires Valid()
      ensures r == SlabModel.Get(View(), key)
    {
      var at := CalculateKey(key);
      if at == None {
        return None;
      }
      Locate(key);
      if at.value.slot >= |slots| {
        return None;
      }
      match slots[at.value.slot][at.value.offset]
      case Occupied(v) => return Some(v);
      case _ => return None;
    }

    /** A store into one cell of one slot. */
    method Store(slot: nat, offset: nat, e: Entry<T>)
      requires Laid() && slot < |slots| && offset < slots[slot].Length
      modifies slots[slot], `cells
      ensures Laid()
      ensures SlotStart(slot) + offset < |old(cells)|
      ensures cells == old(cells)[SlotStart(slot) + offset := e]
    {
      assert Holds(slot, slots[slot]);
      slots[slot][offset] := e;
      cells := cells[SlotStart(slot) + offset := e];
      forall i | 0 <= i < |slots|
        ensures Holds(i, slots[i])
      {
        assert old(Holds(i, slots[i]));
        if i < slot {
          SlotStartMonotone(i, slot);
        } else if slot < i {
          SlotStartMonotone(slot, i);
        }
      }
    }

    /** `new_slot`, the store into its first cell, and the push. */
    method PushSlot(val: T, n: nat)
      requires Laid() && n == SlotSize(|slots|) && |cells| + n <= KEY_LIMIT
      modifies `slots, `cells
      ensures Laid() && |slots| == old(|slots|) + 1 && slots[..old(|slots|)] == old(slots)
      ensures forall a :: a in slots ==> a in old(slots) || fresh(a)
      ensures cells == old(cells) + FreshSlot(val, n)
    {
      ghost var k := |slots|;
      var slot := new Entry<T>[n](_ => Unused);
      slot[0] := Occupied(val);
      slots := slots + [slot];
      cells := cells + FreshSlot(val, n);
      assert Holds(k, slot);
      forall i | 0 <= i < k
        ensures Holds(i, slots[i])
      {
        assert old(Holds(i, slots[i]));
      }
    }

    /** `insert_at` once the key's location is known and its cell is not occupied. */
    method InsertAt(key: usize, at: Location, val: T)
      requires Laid() && key == next < KEY_LIMIT && key <= |cells|
      requires Placed(key, at)
      requires key < |cells| ==> cells[key].Unused? || (cells[key].Vacant? && cells[key].next <= KEY_LIMIT)
      modifies this`slots, `len, `next, `cells, slots
      ensures Laid()
      ensures old(|slots|) <= |slots| && slots[..old(|slots|)] == old(slots)
      ensures |slots| == if key < old(|cells|) then old(|slots|) else old(|slots|) + 1
      ensures forall a :: a in slots ==> a in old(slots) || fresh(a)
      ensures View() ==
        if key < old(|cells|) then
          Fill(old(View()), val, if old(cells)[key].Vacant? then old(cells)[key].next else key + 1)
        else Grow(old(View()), val, SlotLength(key))
    {
      if at.slot < |slots| {
        hide Laid, Holds, SlotStart, SlotLength;
        match slots[at.slot][at.offset] {
          case Unused => next := key + 1;
          case Vacant(k) => next := k;
        }
        Store(at.slot, at.offset, Occupied(val));
      } else {
        SlotFits(|slots|);
        hide Laid, Holds, SlotStart, SlotLength, SlotSize;
        PushSlot(val, at.len);
        next := key + 1;
      }
      len := len + 1;
    }

    /** `insert`. */
    method Insert(val: T) returns (r: Option<usize>)
      requires Valid()
      modifies this, slots
      ensures Valid()
      ensures old(|slots|) <= |slots| && slots[..old(|slots|)] == old(slots)
      ensures forall a :: a in slots ==> a in old(slots) || fresh(a)
      ensures SlabModel.Insert(old(View()), val) ==
        if r.Some? then Inserted(View(), r.value) else Refused
      ensures r.None? ==> View() == old(View()) && slots == old(slots)
    {
      ghost var was := View();
      ghost var h := InsertKeepsShape(was, shape, val);
      InsertCases(was, shape, val);
      var key := next;
      var at := CalculateKey(key);
      if at == None {
        return None;
      }
      Locate(key);
      hide Laid, Holds, SlotStart, SlotLength, SlotSize, Placed, WellFormed, CalculateKey;
      InsertAt(key, at.value, val);
      assert SlabModel.Insert(was, val) == Inserted(View(), key);
      shape := h;
      r := Some(key);
    }

    /** `remove`: `None` for a key outside the key space, else whether an entry was removed. */
    method Remove(key: usize) returns (r: Option<bool>)
      requires Valid()
      modifies this, slots
      ensures Valid() && slots == old(slots)
      ensures View() == SlabModel.Remove(old(View()), key).slab
      ensures r == if key >= KEY_LIMIT then None else Some(SlabModel.Remove(old(View()), key).removed.Some?)
    {
      var v := RemoveUnpin(key);
      r := if key >= KEY_LIMIT then None else Some(v.Some?);
    }

    /** An occupied cell becomes vacant, at the head of the free chain. */
    method Vacate(key: usize, slot: nat, offset: nat) returns (v: T)
      requires Valid() && slot < |slots| && offset < slots[slot].Length
      requires SlotStart(slot) + offset == key < |cells| && slots[slot][offset] == cells[key] && cells[key].Occupied?
      modifies this, slots
      ensures Valid() && slots == old(slots)
      ensures SlabModel.Remove(old(View()), key) == RemoveResult(View(), Some(v))
    {
      v := slots[slot][offset].value;
      RemoveKeepsShape(View(), shape, key);
      hide Laid, Holds, SlotStart, WellFormed;
      Store(slot, offset, Vacant(next));
      len := len - 1;
      next := key;
      shape := shape.(free := [key] + shape.free);
    }

    /** `remove_unpin`: the entry itself, if there was one. */
    method RemoveUnpin(key: usize) returns (r: Option<T>)
      requires Valid()
      modifies this, slots
      ensures Valid() && slots == old(slots)
      ensures SlabModel.Remove(old(View()), key) == RemoveResult(View(), r)
    {
      var at := CalculateKey(key);
      if at == None {
        return None;
      }
      Locate(key);
      var Location(slot, offset, _) := at.value;
      if slot >= |slots| || !slots[slot][offset].Occupied? {
        return None;
      }
      hide Holds, SlotStart, SlotSize, WellFormed, CalculateKey;
      var v := Vacate(key, slot, offset);
      r := Some(v);
    }

    /** A write through the pinned reference `get_pin_mut` hands out. */
    method Update(key: usize, val: T)
      requires Valid() && SlabModel.Get(View(), key).Some?
      modifies slots, `cells
      ensures Valid()
      ensures View() == SlabModel.Update(old(View()), key, val)
    {
      Locate(key);
      var at := CalculateKey(key).value;
      UpdateKeepsShape(View(), shape, key, val);
      Store(at.slot, at.offset, Occupied(val));
    }
  }
}
