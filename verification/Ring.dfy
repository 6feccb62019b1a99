/** The ring buffer as an object, its two ways of being created, and calls made one at a time. */
module Rings {
  import opened Options
  import opened Powers
  import opened Words
  import opened KeySpace
  import opened RingModel

  // -------------------------------------------------------------------------------------
  // Capacities
  // -------------------------------------------------------------------------------------

  /** `count_ones`. */
  function CountOnes(x: nat): (n: nat) {
    if x == 0 then 0 else x % 2 + CountOnes(x / 2)
  }

  lemma {:induction false} CountZero(x: nat)
    requires CountOnes(x) == 0
    ensures x == 0
  {
    if x > 0 {
      CountZero(x / 2);
    }
  }

  lemma {:induction false} CountOfPower(k: nat)
    ensures CountOnes(Pow2(k)) == 1
  {
    if k > 0 {
      assert Pow2(k) % 2 == 0 && Pow2(k) / 2 == Pow2(k - 1);
      CountOfPower(k - 1);
    }
  }

  /** A word with a single bit set is a power of two. */
  lemma {:induction false} SingleBit(x: nat) returns (k: nat)
    requires CountOnes(x) == 1
    ensures x == Pow2(k)
  {
    if x % 2 == 1 {
      CountZero(x / 2);
      k := 0;
    } else {
      var h := SingleBit(x / 2);
      k := h + 1;
    }
  }

  ghost predicate PowerOfTwo(x: nat) {
    exists k :: x == Pow2(k)
  }

  lemma PowerOfTwoTest(x: nat)
    ensures CountOnes(x) == 1 <==> PowerOfTwo(x)
  {
    if CountOnes(x) == 1 {
      var k := SingleBit(x);
    }
    if PowerOfTwo(x) {
      var k :| x == Pow2(k);
      CountOfPower(k);
    }
  }

  // -------------------------------------------------------------------------------------
  // A ring laid over a region of memory
  // -------------------------------------------------------------------------------------

  const WORD: nat := 8

  /** Addresses of the two indices and of the cells, and the number of cells. */
  datatype Layout = Layout(front: nat, back: nat, cells: nat, len: nat)

  /** Where a ring lies, what its indices start as, and the mask it uses. */
  datatype Placement =
    | NullPointer
    | Misaligned
    | TooSmall
    | BadElement
    | Placed(layout: Layout, front: nat, back: nat, mask: nat)

  /** `align_offset`: bytes to the next multiple of `align`. */
  function AlignOffset(address: nat, align: nat): (p: nat)
    requires align > 0
    ensures p < align && (address + p) % align == 0
  {
    var m := address % align;
    assert address == align * (address / align) + m;
    if m == 0 then 0 else
      assert align * (address / align + 1) == align * (address / align) + align;
      UniqueRemainder(address + (align - m), align, address / align + 1, 0);
      align - m
  }

  /** Everything lies inside the region, apart from everything else, and the cells are aligned. */
  predicate Fits(l: Layout, address: nat, size: nat, element: nat)
    requires element > 0
  {
    && address == l.front
    && l.front + WORD == l.back
    && l.back + WORD <= l.cells
    && l.cells % element == 0
    && l.cells + element * l.len <= address + size
  }

  /** No more bytes than needed go to padding, and twice as many cells would not fit. */
  predicate Largest(l: Layout, address: nat, size: nat, element: nat) {
    l.cells < l.back + WORD + element && l.cells + element * (2 * l.len) > address + size
  }

  lemma QuotientFits(room: nat, element: nat, n: nat)
    requires element > 0 && n <= room / element < 2 * n
    ensures element * n <= room < element * (2 * n)
  {
    var q := room / element;
    assert room == element * q + room % element;
    assert element * n <= element * q by { if n < q { Stretch(element, n, q); } }
    Stretch(element, q, 2 * n);
  }

  /**
   `from_raw_parts`; elements must have a power-of-two size, or finding the padding panics.
   `word` is what the memory holds: indices that are not reset are taken over from there.
   */
  method FromRawParts(init: bool, address: nat, size: nat, element: nat, word: nat -> nat) returns (r: Placement)
    ensures r.NullPointer? <==> address == 0
    ensures r.Misaligned? <==> address % WORD != 0
    ensures r.BadElement? <==> address != 0 && address % WORD == 0 && !PowerOfTwo(element)
    ensures r.Placed? ==>
      && element > 0
      && PowerOfTwo(r.layout.len)
      && Fits(r.layout, address, size, element)
      && Largest(r.layout, address, size, element)
      && r.mask + 1 == r.layout.len
    ensures r.Placed? && init ==> r.front == 0 && r.back == 0
    ensures r.Placed? && !init ==> r.front == word(r.layout.front) && r.back == word(r.layout.back)
    ensures r.TooSmall? ==> element > 0 && forall l: Layout :: Fits(l, address, size, element) ==> l.len == 0
  {
    if address == 0 {
      return NullPointer;
    }
    if address % WORD != 0 {
      return Misaligned;
    }
    PowerOfTwoTest(element);
    if CountOnes(element) != 1 {
      return BadElement;
    }
    var ptr := address;
    var used := WORD + WORD;
    var front := ptr;
    ptr := ptr + WORD;
    var back := ptr;
    ptr := ptr + WORD;
    var padding := AlignOffset(ptr, element);
    used := used + padding;
    var cells := ptr + padding;
    if size < used + element {
      forall l: Layout | Fits(l, address, size, element)
        ensures l.len == 0
      {
        NextMultiple(ptr, element, padding, l.cells);
        if l.len > 1 {
          Stretch(element, 1, l.len);
        }
      }
      return TooSmall;
    }
    var most := (size - used) / element;
    assert most >= 1;
    BitLengthBounds(most);
    var len := Pow2(BitLength(most) - 1);
    QuotientFits(size - used, element, len);
    r := if init then Placed(Layout(front, back, cells, len), 0, 0, len - 1)
         else Placed(Layout(front, back, cells, len), word(front), word(back), len - 1);
  }

  /** No aligned address lies between an address and its alignment. */
  lemma NextMultiple(address: nat, align: nat, padding: nat, other: nat)
    requires padding < align && (address + padding) % align == 0
    requires other >= address && other % align == 0
    ensures other >= address + padding
  {
    var a := address + padding;
    if other < a {
      Apart(other, a, align);
    }
  }

  // -------------------------------------------------------------------------------------
  // The object
  // -------------------------------------------------------------------------------------

  /** The items a ring holds, oldest first. */
  ghost function Contents<T>(r: Ring<T>): (s: seq<T>)
    requires |r.dequeued| <= |r.enqueued|
  {
    r.enqueued[|r.dequeued|..]
  }

  /** What the two index tests say about a ring's contents. */
  lemma IndexTests<T>(r: Ring<T>, k: nat)
    requires Inv(r, k)
    ensures |r.dequeued| <= |r.enqueued| && |r.buffer| == Pow2(k)
    ensures After(r, r.back) == r.front <==> |Contents(r)| == |r.buffer| - 1
    ensures r.back == r.front <==> Contents(r) == []
  {
    var d, held := |r.dequeued|, |Contents(r)|;
    assert |r.enqueued| == d + held;
    hide After;
    FullTest(r, k, d, held);
    EmptyTest(d, held, Pow2(k));
  }

  /** A `try_enqueue` that nothing interleaves with: five steps of the protocol. */
  ghost function EnqueueAlone<T>(r: Ring<T>, item: T): (r': Ring<T>) {
    var r2 := Next(Next(r, CallProducer(Enqueue(item))), Produce(item));
    Next(Next(Next(r2, Produce(item)), Produce(item)), Produce(item))
  }

  /** A `try_dequeue` that nothing interleaves with. */
  ghost function DequeueAlone<T>(r: Ring<T>): (r': Ring<T>) {
    Next(Next(Next(Next(Next(r, CallConsumer(Dequeue)), Consume), Consume), Consume), Consume)
  }

  class RingBuffer<T> {
    var front: nat
    var back: nat
    const buffer: array<T>
    const mask: nat

    ghost const exponent: nat
    ghost var model: Ring<T>

    /** The fields hold what the model says, and the model obeys the protocol. */
    ghost predicate Valid()
      reads this, buffer
    {
      && Inv(model, exponent)
      && model.producer.ProducerIdle? && model.consumer.ConsumerIdle?
      && front == model.front && back == model.back
      && buffer[..] == model.buffer && mask == model.mask
    }

    constructor (cells: array<T>, ghost k: nat)
      requires cells.Length == Pow2(k)
      ensures Valid() && buffer == cells && exponent == k && model == Initial(cells[..])
    {
      front, back := 0, 0;
      buffer := cells;
      mask := cells.Length - 1;
      exponent := k;
      model := Initial(cells[..]);
    }

    /** `capacity`. */
    method Capacity() returns (n: nat)
      requires Valid()
      ensures n == Pow2(exponent) - 1 == buffer.Length - 1
    {
      n := buffer.Length - 1;
    }

    method IsFull() returns (b: bool)
      requires Valid()
      ensures b <==> |Contents(model)| == buffer.Length - 1
    {
      IndexTests(model, exponent);
      hide Inv, And, Contents;
      b := And(back + 1, mask) == front;
    }

    method IsEmpty() returns (b: bool)
      requires Valid()
      ensures b <==> Contents(model) == []
    {
      IndexTests(model, exponent);
      hide Inv, And, Contents;
      b := back == front;
    }

    /** `try_enqueue`: appends the item, or refuses it exactly when the ring is full. */
    method TryEnqueue(item: T) returns (ok: bool)
      requires Valid()
      modifies this, buffer
      ensures Valid() && model == EnqueueAlone(old(model), item)
      ensures ok <==> |old(Contents(model))| < buffer.Length - 1
      ensures Contents(model) == old(Contents(model)) + if ok then [item] else []
    {
      ghost var end := EnqueueAlone(model, item);
      EnqueueKeeps(model, exponent, item);
      var f, b := front, back;
      if And(b + 1, mask) == f {
        model := end;
        return false;
      }
      buffer[b] := item;
      back := And(b + 1, mask);
      model := end;
      ok := true;
    }

    /** `try_dequeue`: takes the oldest item, or nothing exactly when there is none. */
    method TryDequeue() returns (item: Option<T>)
      requires Valid()
      modifies this
      ensures Valid() && model == DequeueAlone(old(model))
      ensures item == if old(Contents(model)) == [] then None else Some(old(Contents(model))[0])
      ensures Contents(model) == if item.None? then [] else old(Contents(model))[1..]
    {
      ghost var end := DequeueAlone(model);
      DequeueKeeps(model, exponent);
      var f, b := front, back;
      if b == f {
        model := end;
        return None;
      }
      item := Some(buffer[f]);
      front := And(f + 1, mask);
      model := end;
    }
  }

  /** What five uninterrupted producer steps come to. */
  lemma EnqueueKeeps<T>(r: Ring<T>, k: nat, item: T)
    requires Inv(r, k) && r.producer.ProducerIdle?
    ensures var r' := EnqueueAlone(r, item);
      && Inv(r', k) && r'.producer.ProducerIdle? && r'.consumer == r.consumer
      && r'.front == r.front && r'.dequeued == r.dequeued && r'.mask == r.mask
      && r.back < |r.buffer|
      && (After(r, r.back) == r.front <==> InFlight(r) == Pow2(k) - 1)
      && if After(r, r.back) == r.front then
          r'.back == r.back && r'.buffer == r.buffer && r'.enqueued == r.enqueued
        else
          && r'.back == After(r, r.back)
          && r'.buffer == r.buffer[r.back := item]
          && r'.enqueued == r.enqueued + [item]
  {
    hide And, Logged, Stored;
    var r1 := Next(r, CallProducer(Enqueue(item)));
    NextKeeps(r, k, CallProducer(Enqueue(item)));
    var r2 := Next(r1, Produce(item));
    NextKeeps(r1, k, Produce(item));
    ProducerTests(r2, k);
    var r3 := Next(r2, Produce(item));
    NextKeeps(r2, k, Produce(item));
    var r4 := Next(r3, Produce(item));
    NextKeeps(r3, k, Produce(item));
    NextKeeps(r4, k, Produce(item));
  }

  /** What five uninterrupted consumer steps come to. */
  lemma DequeueKeeps<T>(r: Ring<T>, k: nat)
    requires Inv(r, k) && r.consumer.ConsumerIdle?
    ensures var r' := DequeueAlone(r);
      && Inv(r', k) && r'.consumer.ConsumerIdle? && r'.producer == r.producer
      && r'.back == r.back && r'.buffer == r.buffer && r'.enqueued == r.enqueued && r'.mask == r.mask
      && r.front < |r.buffer|
      && (r.back == r.front <==> InFlight(r) == 0)
      && if r.back == r.front then r'.front == r.front && r'.dequeued == r.dequeued
        else r'.front == After(r, r.front) && r'.dequeued == r.dequeued + [r.buffer[r.front]]
  {
    hide And, Logged, Stored;
    var r1 := Next(r, CallConsumer(Dequeue));
    NextKeeps(r, k, CallConsumer(Dequeue));
    var r2 := Next(r1, Consume);
    NextKeeps(r1, k, Consume);
    ConsumerTests(r2, k);
    var r3 := Next(r2, Consume);
    NextKeeps(r2, k, Consume);
    var r4 := Next(r3, Consume);
    NextKeeps(r3, k, Consume);
    NextKeeps(r4, k, Consume);
  }

  /** `new`: a ring exactly for the powers of two. */
  method NewRing<T(0)>(capacity: usize) returns (r: Option<RingBuffer<T>>)
    ensures r.Some? <==> PowerOfTwo(capacity)
    ensures r.Some? ==> fresh(r.value) && r.value.Valid() && r.value.buffer.Length == capacity
    ensures r.Some? ==> r.value.model == Initial(r.value.buffer[..])
  {
    PowerOfTwoTest(capacity);
    if CountOnes(capacity) != 1 {
      return None;
    }
    var cells := new T[capacity];
    ghost var k := SingleBit(capacity);
    var ring := new RingBuffer(cells, k);
    r := Some(ring);
  }

  /** A ring over these cells that starts as placed. */
  ghost function Begun<T>(p: Placement, cells: seq<T>): (r: Ring<T>)
    requires p.Placed?
  {
    Ring(p.front, p.back, cells, p.mask, ProducerIdle, ConsumerIdle, [], [], [], [], false)
  }

  /** The object made of a placement whose indices were reset: an empty ring over the region's cells. */
  method RingOver<T>(p: Placement, cells: array<T>) returns (ring: RingBuffer<T>)
    requires p.Placed? && p.front == 0 && p.back == 0 && PowerOfTwo(p.layout.len)
    requires cells.Length == p.layout.len == p.mask + 1
    ensures fresh(ring) && ring.Valid() && ring.buffer == cells
    ensures ring.model == Begun(p, cells[..]) && Contents(ring.model) == []
  {
    ghost var k :| p.layout.len == Pow2(k);
    ring := new RingBuffer(cells, k);
  }
}
