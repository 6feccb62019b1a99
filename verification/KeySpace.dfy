/** Generic option type used where the source returns `Option`. */
module Options {
  datatype Option<+T> = None | Some(value: T)

  function ToSeq<T>(o: Option<T>): (s: seq<T>) {
    if o.Some? then [o.value] else []
  }

  lemma Regroup<T>(a: seq<T>, b: seq<T>, c: seq<T>)
    ensures (a + b) + c == a + (b + c)
  {
  }
}

/** Powers of two, the arithmetic the slab's slots and the ring's mask rest on. */
module Powers {

  function Pow2(n: nat): (r: nat)
    ensures 1 <= r
  {
    if n == 0 then 1 else 2 * Pow2(n - 1)
  }

  lemma {:induction false} Pow2Monotone(m: nat, n: nat)
    requires m <= n
    ensures Pow2(m) <= Pow2(n)
    ensures m < n ==> 2 * Pow2(m) <= Pow2(n)
    decreases n
  {
    if m < n {
      Pow2Monotone(m, n - 1);
    }
  }

  /** The widths the 64-bit source depends on. */
  lemma Pow2Constants()
    ensures Pow2(4) == 16
    ensures Pow2(59) == 0x800_0000_0000_0000
    ensures Pow2(63) == 0x8000_0000_0000_0000
    ensures Pow2(64) == 0x1_0000_0000_0000_0000
  {
    assert Pow2(4) == 16;
    assert Pow2(8) == 256;
    assert Pow2(12) == 0x1000;
    assert Pow2(16) == 0x1_0000;
    assert Pow2(20) == 0x10_0000;
    assert Pow2(24) == 0x100_0000;
    assert Pow2(28) == 0x1000_0000;
    assert Pow2(32) == 0x1_0000_0000;
    assert Pow2(36) == 0x10_0000_0000;
    assert Pow2(40) == 0x100_0000_0000;
    assert Pow2(44) == 0x1000_0000_0000;
    assert Pow2(48) == 0x1_0000_0000_0000;
    assert Pow2(52) == 0x10_0000_0000_0000;
    assert Pow2(56) == 0x100_0000_0000_0000;
    assert Pow2(60) == 0x1000_0000_0000_0000;
  }
}

/**
 The mapping between slab keys and (slot, offset) pairs: slots of 16, 16, 32, 64, ...
 entries laid end to end over the 63-bit key space.
 */
module KeySpace {
  import opened Options
  import opened Powers

  type usize = x: nat | x < 0x1_0000_0000_0000_0000

  const USIZE_BITS: nat := 64
  const FIRST_SLOT_SIZE: nat := 16
  const FIRST_SLOT_MASK: nat := 4
  const KEY_LIMIT: nat := 0x8000_0000_0000_0000
  const MAX_SLOTS: nat := 60

  datatype Location = Location(slot: nat, offset: nat, len: nat)

  /** Number of significant bits of `x`. */
  function BitLength(x: nat): (n: nat) {
    if x == 0 then 0 else 1 + BitLength(x / 2)
  }

  /** `usize::leading_zeros`. */
  function LeadingZeros(x: usize): (n: int) {
    USIZE_BITS - BitLength(x)
  }

  /** `x << n` on usize, one place at a time: a bit shifted out of the word is lost. */
  function Shl(x: usize, n: nat): (r: usize)
    decreases n
  {
    if n == 0 then x else Shl(2 * x % 0x1_0000_0000_0000_0000, n - 1)
  }

  function SaturatingSub(a: int, b: int): (r: nat) {
    if a <= b then 0 else a - b
  }

  /** `calculate_key`: the slot, the offset in it and the slot's length. */
  function CalculateKey(key: usize): (r: Option<Location>) {
    if key >= KEY_LIMIT then None
    else
      var slot := SaturatingSub(USIZE_BITS - LeadingZeros(key), FIRST_SLOT_MASK);
      var (start, end) :=
        if key < FIRST_SLOT_SIZE then (0, FIRST_SLOT_SIZE)
        else if slot == 0 then (0, 0) // slot - 1 would underflow; see `LocationOf`
        else (Shl(FIRST_SLOT_SIZE, slot - 1), Shl(FIRST_SLOT_SIZE, slot));
      Some(Location(slot, SaturatingSub(key, start), SaturatingSub(end, start)))
  }

  /** `slot_sizes`: the length of the n-th slot. */
  function SlotSize(n: nat): (r: nat)
    ensures 1 <= r
  {
    if n <= 1 then FIRST_SLOT_SIZE else FIRST_SLOT_SIZE * Pow2(n - 1)
  }

  /** The first key of the n-th slot: the sum of the sizes of the slots before it. */
  function SlotStart(n: nat): (r: nat) {
    if n == 0 then 0 else SlotStart(n - 1) + SlotSize(n - 1)
  }

  /** The length of the slot a key falls in, said by halving instead of by bit counting. */
  function SlotLength(key: nat): (r: nat)
    ensures 1 <= r
  {
    if key < 2 * FIRST_SLOT_SIZE then FIRST_SLOT_SIZE else 2 * SlotLength(key / 2)
  }

  lemma {:induction false} BitLengthBounds(x: nat)
    requires x > 0
    ensures BitLength(x) > 0
    ensures Pow2(BitLength(x) - 1) <= x < Pow2(BitLength(x))
  {
    if x > 1 {
      BitLengthBounds(x / 2);
    }
  }

  lemma {:induction false} SlotStartIsPower(n: nat)
    requires n > 0
    ensures SlotStart(n) == FIRST_SLOT_SIZE * Pow2(n - 1)
    ensures n > 1 ==> SlotSize(n) == SlotStart(n)
  {
    if n > 1 {
      SlotStartIsPower(n - 1);
    }
  }

  lemma {:induction false} SlotStartMonotone(m: nat, n: nat)
    requires m <= n
    ensures SlotStart(m) <= SlotStart(n)
    ensures m < n ==> SlotStart(m) + SlotSize(m) <= SlotStart(n)
    decreases n
  {
    if m < n {
      SlotStartMonotone(m, n - 1);
    }
  }

  /** Shifting a power of two that stays within the word loses nothing. */
  lemma {:induction false} ShlPower(m: nat, n: nat)
    requires m + n < USIZE_BITS
    ensures Pow2(m) < 0x1_0000_0000_0000_0000
    ensures Shl(Pow2(m), n) == Pow2(m + n)
    decreases n
  {
    Pow2Constants();
    Pow2Monotone(m, 63);
    if n > 0 {
      Pow2Monotone(m + 1, 63);
      ShlPower(m + 1, n - 1);
    }
  }

  /** 16 << s is the (s+4)-th power of two, within 64 bits for every slot of a valid key. */
  lemma ShiftedFirstSlot(s: nat)
    requires s < MAX_SLOTS
    ensures FIRST_SLOT_SIZE * Pow2(s) == Pow2(s + 4)
    ensures Shl(FIRST_SLOT_SIZE, s) == FIRST_SLOT_SIZE * Pow2(s) <= KEY_LIMIT
  {
    Pow2Constants();
    Pow2Monotone(s, 59);
    assert Pow2(s + 4) == 2 * Pow2(s + 3) == 4 * Pow2(s + 2) == 8 * Pow2(s + 1);
    ShlPower(4, s);
  }

  /**
   Every key below 2^63 lies in exactly the slot `CalculateKey` names, at the offset it
   names, and the length it reports is that of `slot_sizes`. No shift loses a bit.
   */
  lemma LocationOf(key: usize)
    requires key < 0x8000_0000_0000_0000
    ensures CalculateKey(key).Some?
    ensures var l := CalculateKey(key).value;
      && l.slot < MAX_SLOTS
      && l.len == SlotSize(l.slot)
      && l.offset < l.len
      && key == SlotStart(l.slot) + l.offset
  {
    if key < FIRST_SLOT_SIZE {
      SmallBits(key);
      hide BitLength;
    } else {
      LargeBits(key);
      hide Pow2, BitLength, Shl, SlotStart, SlotSize;
    }
  }

  /** A key of the first slot has at most four bits. */
  lemma SmallBits(key: nat)
    requires key < FIRST_SLOT_SIZE
    ensures BitLength(key) <= FIRST_SLOT_MASK
  {
    Pow2Constants();
    if key > 0 {
      BitLengthBounds(key);
      if BitLength(key) > 4 { Pow2Monotone(4, BitLength(key) - 1); }
    }
  }

  /** For any other the bit length gives the slot, whose bounds are shifts that lose nothing. */
  lemma LargeBits(key: nat)
    requires FIRST_SLOT_SIZE <= key < KEY_LIMIT
    ensures var s := BitLength(key) - FIRST_SLOT_MASK;
      && 0 < s < MAX_SLOTS
      && Shl(FIRST_SLOT_SIZE, s - 1) == SlotStart(s)
      && Shl(FIRST_SLOT_SIZE, s) == SlotStart(s) + SlotSize(s)
      && SlotStart(s) <= key < SlotStart(s) + SlotSize(s)
  {
    Pow2Constants();
    BitLengthBounds(key);
    var b := BitLength(key);
    if b <= 4 { Pow2Monotone(b, 4); }
    if b > 63 { Pow2Monotone(63, b - 1); }
    var s := b - 4;
    ShiftedFirstSlot(s - 1);
    ShiftedFirstSlot(s);
    SlotStartIsPower(s);
  }

  /** The slots are disjoint: a key determines its slot and its offset. */
  lemma SlotsDisjoint(slot: nat, offset: nat, slot': nat, offset': nat)
    requires offset < SlotSize(slot) && offset' < SlotSize(slot')
    requires SlotStart(slot) + offset == SlotStart(slot') + offset'
    ensures slot == slot' && offset == offset'
  {
    if slot' < slot {
      SlotStartMonotone(slot', slot);
    } else if slot < slot' {
      SlotStartMonotone(slot, slot');
    }
  }

  /** The slots of the table stay within the key space. */
  lemma SlotInKeySpace(slot: nat)
    requires slot < MAX_SLOTS
    ensures SlotStart(slot) + SlotSize(slot) <= KEY_LIMIT
  {
    SlotStartMonotone(slot, MAX_SLOTS);
    SlotStartIsPower(MAX_SLOTS);
    Pow2Constants();
  }

  /** The table is full after exactly `MAX_SLOTS` slots; before that the next one fits. */
  lemma SlotFits(slots: nat)
    requires SlotStart(slots) < 0x8000_0000_0000_0000
    ensures slots < MAX_SLOTS
    ensures SlotStart(slots) + SlotSize(slots) <= 0x8000_0000_0000_0000
  {
    if slots >= MAX_SLOTS {
      SlotStartIsPower(MAX_SLOTS);
      Pow2Constants();
      SlotStartMonotone(MAX_SLOTS, slots);
    }
    SlotInKeySpace(slots);
  }

  /** The converse: every (slot, offset) with the offset inside its slot has one key. */
  lemma KeyAt(slot: nat, offset: nat, key: usize)
    requires slot < MAX_SLOTS
    requires offset < SlotSize(slot)
    requires key == SlotStart(slot) + offset
    ensures key < KEY_LIMIT
    ensures CalculateKey(key) == Some(Location(slot, offset, SlotSize(slot)))
  {
    SlotInKeySpace(slot);
    LocationOf(key);
    var r := CalculateKey(key);
    SlotsDisjoint(slot, offset, r.value.slot, r.value.offset);
  }

  lemma {:induction false} SlotLengthInSlot(slot: nat, key: nat)
    requires SlotStart(slot) <= key < SlotStart(slot) + SlotSize(slot)
    ensures SlotLength(key) == SlotSize(slot)
    decreases slot
  {
    if slot > 1 {
      SlotStartIsPower(slot);
      SlotStartIsPower(slot - 1);
      SlotStartIsPower(slot + 1);
      SlotLengthInSlot(slot - 1, key / 2);
    }
  }

  /** `calculate_key` reports the length of the slot its key falls in. */
  lemma LengthOf(key: usize)
    requires key < KEY_LIMIT
    ensures CalculateKey(key).Some? && CalculateKey(key).value.len == SlotLength(key)
  {
    LocationOf(key);
    var l := CalculateKey(key).value;
    SlotLengthInSlot(l.slot, key);
  }
}
