/**
 The single-producer, single-consumer ring as a protocol of small steps.

 Each load of an index, each access to a cell and each store of an index is one step, and the
 steps of the two sides interleave in any order. The cell being written holds an arbitrary value
 while the write is under way. Between its loads and its store, each side works on copies of the
 indices that the other side may have overtaken.
 */
module RingModel {
  import opened Options
  import opened Powers
  import opened Words

  datatype ProducerCall<T> = Enqueue(item: T) | ProducerIsFull | ProducerIsEmpty
  datatype ConsumerCall = Dequeue | ConsumerIsFull | ConsumerIsEmpty

  /**
   Where the producer is. `held` is not known to it: it records how many items were in the ring
   when the producer loaded the front index.
   */
  datatype Producer<T> =
    | ProducerIdle
    | ProducerFront(call: ProducerCall<T>, front: nat, held: nat)
    | ProducerBoth(call: ProducerCall<T>, front: nat, back: nat, held: nat)
    | Writing(item: T, back: nat)
    | Written(item: T, back: nat)

  /** Where the consumer is; `held` is the number of items when it loaded the back index. */
  datatype Consumer<T> =
    | ConsumerIdle
    | ConsumerFront(call: ConsumerCall, front: nat)
    | ConsumerBoth(call: ConsumerCall, front: nat, back: nat, held: nat)
    | Reading(front: nat)
    | Read(item: T, front: nat)

  /** What calls answered, next to the number of items at the deciding load. */
  datatype Answer<T> =
    | Enqueueing(item: T, accepted: bool, held: nat)
    | Dequeueing(found: bool, held: nat)
    | FullIs(full: bool, held: nat)
    | EmptyIs(empty: bool, held: nat)

  datatype Ring<T> = Ring(
    front: nat, back: nat, buffer: seq<T>, mask: nat,
    producer: Producer<T>, consumer: Consumer<T>,
    asked: seq<T>, enqueued: seq<T>, dequeued: seq<T>, answers: seq<Answer<T>>, panicked: bool)

  datatype Action<T> =
    | CallProducer(producing: ProducerCall<T>)
    | Produce(torn: T)
    | CallConsumer(consuming: ConsumerCall)
    | Consume

  function InFlight<T>(r: Ring<T>): (n: int) {
    |r.enqueued| - |r.dequeued|
  }

  /** The index after `i`. */
  function After<T>(r: Ring<T>, i: nat): (j: nat) {
    And(i + 1, r.mask)
  }

  function Initial<T>(buffer: seq<T>): (r: Ring<T>)
    requires |buffer| > 0
  {
    Ring(0, 0, buffer, |buffer| - 1, ProducerIdle, ConsumerIdle, [], [], [], [], false)
  }

  function ProducerAnswers<T>(r: Ring<T>, a: Answer<T>): (r': Ring<T>) {
    r.(producer := ProducerIdle, answers := r.answers + [a])
  }

  function ConsumerAnswers<T>(r: Ring<T>, a: Answer<T>): (r': Ring<T>) {
    r.(consumer := ConsumerIdle, answers := r.answers + [a])
  }

  /** The producer has both indices and decides. */
  function ProducerDecides<T>(r: Ring<T>, torn: T): (r': Ring<T>)
    requires r.producer.ProducerBoth?
  {
    var ProducerBoth(call, f, b, held) := r.producer;
    match call
    case ProducerIsFull => ProducerAnswers(r, FullIs(After(r, b) == f, held))
    case ProducerIsEmpty => ProducerAnswers(r, EmptyIs(b == f, held))
    case Enqueue(item) =>
      if After(r, b) == f then ProducerAnswers(r, Enqueueing(item, false, held))
      else if b >= |r.buffer| then r.(panicked := true)
      else r.(producer := Writing(item, b), buffer := r.buffer[b := torn],
              answers := r.answers + [Enqueueing(item, true, held)])
  }

  function ProducerStep<T>(r: Ring<T>, torn: T): (r': Ring<T>) {
    match r.producer
    case ProducerIdle => r
    case ProducerFront(call, f, held) => r.(producer := ProducerBoth(call, f, r.back, held))
    case ProducerBoth(_, _, _, _) => ProducerDecides(r, torn)
    case Writing(item, b) =>
      if b >= |r.buffer| then r.(panicked := true)
      else r.(producer := Written(item, b), buffer := r.buffer[b := item])
    case Written(item, b) =>
      r.(producer := ProducerIdle, back := After(r, b), enqueued := r.enqueued + [item])
  }

  /** The consumer has both indices and decides. */
  function ConsumerDecides<T>(r: Ring<T>): (r': Ring<T>)
    requires r.consumer.ConsumerBoth?
  {
    var ConsumerBoth(call, f, b, held) := r.consumer;
    match call
    case ConsumerIsFull => ConsumerAnswers(r, FullIs(After(r, b) == f, held))
    case ConsumerIsEmpty => ConsumerAnswers(r, EmptyIs(b == f, held))
    case Dequeue =>
      if b == f then ConsumerAnswers(r, Dequeueing(false, held))
      else r.(consumer := Reading(f), answers := r.answers + [Dequeueing(true, held)])
  }

  function ConsumerStep<T>(r: Ring<T>): (r': Ring<T>) {
    match r.consumer
    case ConsumerIdle => r
    case ConsumerFront(call, f) =>
      r.(consumer := ConsumerBoth(call, f, r.back, if InFlight(r) < 0 then 0 else InFlight(r)))
    case ConsumerBoth(_, _, _, _) => ConsumerDecides(r)
    case Reading(f) =>
      if f >= |r.buffer| then r.(panicked := true)
      else r.(consumer := Read(r.buffer[f], f))
    case Read(item, f) =>
      r.(consumer := ConsumerIdle, front := After(r, f), dequeued := r.dequeued + [item])
  }

  /** One step of the protocol; a call is made only by a side that is between calls. */
  function Next<T>(r: Ring<T>, a: Action<T>): (r': Ring<T>) {
    if r.panicked then r else
    match a
    case CallProducer(call) =>
      if !r.producer.ProducerIdle? then r
      else r.(producer := ProducerFront(call, r.front, if InFlight(r) < 0 then 0 else InFlight(r)),
              asked := r.asked + (if call.Enqueue? then [call.item] else []))
    case Produce(torn) => ProducerStep(r, torn)
    case CallConsumer(call) =>
      if !r.consumer.ConsumerIdle? then r else r.(consumer := ConsumerFront(call, r.front))
    case Consume => ConsumerStep(r)
  }

  function Run<T>(r: Ring<T>, actions: seq<Action<T>>): (r': Ring<T>)
    decreases |actions|
  {
    if actions == [] then r else Run(Next(r, actions[0]), actions[1..])
  }

  // -------------------------------------------------------------------------------------
  // The invariant
  // -------------------------------------------------------------------------------------

  /** The shared part: masked indices are unbounded counters modulo the capacity. */
  ghost predicate Shared<T>(r: Ring<T>, k: nat) {
    var cap, e, d := Pow2(k), |r.enqueued|, |r.dequeued|;
    && !r.panicked
    && |r.buffer| == cap && r.mask == cap - 1
    && r.dequeued <= r.enqueued
    && e - d < cap
    && r.back == e % cap
    && r.front == d % cap
  }

  /** The items in flight are where the counters say. */
  ghost predicate Stored<T>(r: Ring<T>, k: nat)
    requires Shared(r, k)
  {
    forall i :: |r.dequeued| <= i < |r.enqueued| ==> r.buffer[i % Pow2(k)] == r.enqueued[i]
  }

  /** The producer's copy of the front may be behind: it is what the front was `held` items ago. */
  ghost predicate ProducerOk<T>(r: Ring<T>, k: nat)
    requires Shared(r, k)
  {
    var cap, e, d := Pow2(k), |r.enqueued|, |r.dequeued|;
    match r.producer
    case ProducerIdle => true
    case ProducerFront(_, f, held) => e - d <= held < cap && held <= e && f == (e - held) % cap
    case ProducerBoth(_, f, b, held) => e - d <= held < cap && held <= e && f == (e - held) % cap && b == e % cap
    case Writing(_, b) => e - d + 1 < cap && b == e % cap
    case Written(item, b) => e - d + 1 < cap && b == e % cap && r.buffer[b] == item
  }

  /** The consumer's copy of the back may be behind: it is where the back was, `held` past the front. */
  ghost predicate ConsumerOk<T>(r: Ring<T>, k: nat)
    requires Shared(r, k)
  {
    var cap, e, d := Pow2(k), |r.enqueued|, |r.dequeued|;
    match r.consumer
    case ConsumerIdle => true
    case ConsumerFront(_, f) => f == d % cap
    case ConsumerBoth(_, f, b, held) => f == d % cap && held <= e - d && b == (d + held) % cap
    case Reading(f) => d < e && f == d % cap
    case Read(item, f) => d < e && f == d % cap && item == r.enqueued[d]
  }

  /** An answer is exact at the instant of its deciding load. */
  predicate Truthful<T>(a: Answer<T>, cap: nat) {
    match a
    case Enqueueing(_, accepted, held) => accepted <==> held != cap - 1
    case Dequeueing(found, held) => found <==> held != 0
    case FullIs(full, held) => full <==> held == cap - 1
    case EmptyIs(empty, held) => empty <==> held == 0
  }

  /** The items of the enqueue calls that have been decided, in order. */
  function Decided<T>(s: seq<Answer<T>>): (items: seq<T>) {
    if s == [] then []
    else Decided(s[..|s| - 1]) + if s[|s| - 1].Enqueueing? then [s[|s| - 1].item] else []
  }

  /** The items of those that were accepted. */
  function Accepted<T>(s: seq<Answer<T>>): (items: seq<T>) {
    if s == [] then []
    else Accepted(s[..|s| - 1]) + if s[|s| - 1].Enqueueing? && s[|s| - 1].accepted then [s[|s| - 1].item] else []
  }

  /** The item of a call that is not decided yet. */
  function Undecided<T>(r: Ring<T>): (items: seq<T>) {
    if (r.producer.ProducerFront? || r.producer.ProducerBoth?) && r.producer.call.Enqueue?
    then [r.producer.call.item] else []
  }

  /** The item of an accepted call that is not published yet. */
  function Unpublished<T>(r: Ring<T>): (items: seq<T>) {
    if r.producer.Writing? || r.producer.Written? then [r.producer.item] else []
  }

  /** Calls are decided in order, and exactly the accepted items enter the ring. */
  ghost predicate Accounted<T>(r: Ring<T>) {
    && Decided(r.answers) + Undecided(r) == r.asked
    && Accepted(r.answers) == r.enqueued + Unpublished(r)
  }

  ghost predicate Logged<T>(r: Ring<T>, cap: nat) {
    Accounted(r) && forall i :: 0 <= i < |r.answers| ==> Truthful(r.answers[i], cap)
  }

  ghost predicate Protocol<T>(r: Ring<T>, k: nat) {
    Shared(r, k) && Stored(r, k) && ProducerOk(r, k) && ConsumerOk(r, k)
  }

  ghost predicate Inv<T>(r: Ring<T>, k: nat) {
    Protocol(r, k) && Logged(r, Pow2(k))
  }

  // -------------------------------------------------------------------------------------
  // Counters and cells
  // -------------------------------------------------------------------------------------

  /** Counters less than the capacity apart have different cells. */
  lemma Apart(i: nat, j: nat, n: nat)
    requires i < j < i + n
    ensures i % n != j % n
  {
    if i % n == j % n {
      var p, q := i / n, j / n;
      assert i == n * p + i % n && j == n * q + j % n;
      if p < q {
        Stretch(n, p, q);
      } else if q < p {
        Stretch(n, q, p);
      }
    }
  }

  /** Counters a whole capacity apart share their cell. */
  lemma Wraps(i: nat, n: nat)
    requires n > 0
    ensures (i + n) % n == i % n
  {
    UniqueRemainder(i + n, n, i / n + 1, i % n);
  }

  /** The index after a counter's cell is the next counter's cell. */
  lemma AfterCounts<T>(r: Ring<T>, k: nat, c: nat)
    requires r.mask == Pow2(k) - 1
    ensures After(r, c % Pow2(k)) == (c + 1) % Pow2(k)
  {
    MaskIsModulo(c % Pow2(k) + 1, k);
    NextRemainder(c, Pow2(k));
  }

  lemma NextRemainder(c: nat, n: nat)
    requires n > 0
    ensures (c % n + 1) % n == (c + 1) % n
  {
    var q, m := c / n, c % n;
    assert c == n * q + m;
    if m + 1 < n {
      UniqueRemainder(m + 1, n, 0, m + 1);
      UniqueRemainder(c + 1, n, q, m + 1);
    } else {
      UniqueRemainder(n, n, 1, 0);
      assert n * (q + 1) == n * q + n;
      UniqueRemainder(c + 1, n, q + 1, 0);
    }
  }

  /** A ring with `held < n` items has equal indices exactly when it holds none. */
  lemma EmptyTest(d: nat, held: nat, n: nat)
    requires held < n
    ensures (d + held) % n == d % n <==> held == 0
  {
    if held > 0 {
      Apart(d, d + held, n);
    }
  }

  /** It has the index after the back equal to the front exactly when it holds `n - 1`. */
  lemma FullTest<T>(r: Ring<T>, k: nat, d: nat, held: nat)
    requires r.mask == Pow2(k) - 1 && held < Pow2(k)
    ensures After(r, (d + held) % Pow2(k)) == d % Pow2(k) <==> held == Pow2(k) - 1
  {
    var n := Pow2(k);
    AfterCounts(r, k, d + held);
    if held + 1 < n {
      Apart(d, d + held + 1, n);
    } else {
      Wraps(d, n);
    }
  }

  // -------------------------------------------------------------------------------------
  // Every step keeps the invariant
  // -------------------------------------------------------------------------------------

  lemma AnswerAppended<T>(s: seq<Answer<T>>, a: Answer<T>)
    ensures Decided(s + [a]) == Decided(s) + if a.Enqueueing? then [a.item] else []
    ensures Accepted(s + [a]) == Accepted(s) + if a.Enqueueing? && a.accepted then [a.item] else []
  {
    assert (s + [a])[..|s|] == s;
  }

  /** An answer that decides no enqueue call. */
  lemma PeekLogged<T>(r: Ring<T>, r': Ring<T>, a: Answer<T>, cap: nat)
    requires Logged(r, cap) && Truthful(a, cap) && !a.Enqueueing?
    requires r'.answers == r.answers + [a] && r'.asked == r.asked && r'.enqueued == r.enqueued
    requires Undecided(r') == Undecided(r) && Unpublished(r') == Unpublished(r)
    ensures Logged(r', cap)
  {
    hide Decided, Accepted, Undecided, Unpublished;
    AnswerAppended(r.answers, a);
  }

  /** An answer that decides the enqueue call under way. */
  lemma EnqueueLogged<T>(r: Ring<T>, r': Ring<T>, a: Answer<T>, cap: nat)
    requires Logged(r, cap) && Truthful(a, cap) && a.Enqueueing?
    requires r'.answers == r.answers + [a] && r'.asked == r.asked && r'.enqueued == r.enqueued
    requires Undecided(r) == [a.item] && Undecided(r') == []
    requires Unpublished(r) == [] && Unpublished(r') == if a.accepted then [a.item] else []
    ensures Logged(r', cap)
  {
    hide Decided, Accepted, Undecided, Unpublished;
    AnswerAppended(r.answers, a);
  }

  /** The cell the producer owns is not one of those in flight. */
  lemma OwnCell<T>(r: Ring<T>, k: nat, b: nat, x: T)
    requires Shared(r, k) && Stored(r, k) && InFlight(r) + 1 < Pow2(k) && b == r.back
    ensures b < |r.buffer|
    ensures var r' := r.(buffer := r.buffer[b := x]); Shared(r', k) && Stored(r', k)
  {
    var r' := r.(buffer := r.buffer[b := x]);
    forall i | |r.dequeued| <= i < |r.enqueued|
      ensures r'.buffer[i % Pow2(k)] == r.enqueued[i]
    {
      Apart(i, |r.enqueued|, Pow2(k));
    }
  }

  /** A stale front still decides exactly, about the instant at which it was loaded. */
  lemma ProducerTests<T>(r: Ring<T>, k: nat)
    requires Shared(r, k) && ProducerOk(r, k) && r.producer.ProducerBoth?
    ensures var ProducerBoth(_, f, b, held) := r.producer;
      (After(r, b) == f <==> held == Pow2(k) - 1) && (b == f <==> held == 0)
  {
    var held := r.producer.held;
    EmptyTest(|r.enqueued| - held, held, Pow2(k));
    FullTest(r, k, |r.enqueued| - held, held);
  }

  lemma ProducerDecidesLogged<T>(r: Ring<T>, k: nat, torn: T)
    requires Inv(r, k) && r.producer.ProducerBoth?
    ensures Logged(ProducerDecides(r, torn), Pow2(k))
  {
    hide After, Logged;
    var ProducerBoth(call, f, b, held) := r.producer;
    var r' := ProducerDecides(r, torn);
    ProducerTests(r, k);
    match call
    case ProducerIsFull => PeekLogged(r, r', FullIs(After(r, b) == f, held), Pow2(k));
    case ProducerIsEmpty => PeekLogged(r, r', EmptyIs(b == f, held), Pow2(k));
    case Enqueue(item) => EnqueueLogged(r, r', Enqueueing(item, After(r, b) != f, held), Pow2(k));
  }

  lemma ProducerDecidesKeeps<T>(r: Ring<T>, k: nat, torn: T)
    requires Inv(r, k) && r.producer.ProducerBoth?
    ensures Inv(ProducerDecides(r, torn), k)
  {
    hide After, Logged;
    ProducerDecidesLogged(r, k, torn);
    ProducerTests(r, k);
    if After(r, r.producer.back) != r.producer.front {
      OwnCell(r, k, r.producer.back, torn);
    }
  }

  /** The store of the back index publishes the item. */
  lemma PublishKeeps<T>(r: Ring<T>, k: nat, torn: T)
    requires Inv(r, k) && r.producer.Written?
    ensures Inv(ProducerStep(r, torn), k)
  {
    var r' := ProducerStep(r, torn);
    AfterCounts(r, k, |r.enqueued|);
    forall i | |r'.dequeued| <= i < |r'.enqueued|
      ensures r'.buffer[i % Pow2(k)] == r'.enqueued[i]
    {
    }
  }

  lemma ProducerKeeps<T>(r: Ring<T>, k: nat, torn: T)
    requires Inv(r, k)
    ensures Inv(ProducerStep(r, torn), k)
  {
    match r.producer
    case ProducerIdle =>
    case ProducerFront(_, _, _) =>
    case ProducerBoth(_, _, _, _) => ProducerDecidesKeeps(r, k, torn);
    case Writing(item, b) => OwnCell(r, k, b, item);
    case Written(_, _) => PublishKeeps(r, k, torn);
  }

  /** A stale back still decides exactly, about the instant at which it was loaded. */
  lemma ConsumerTests<T>(r: Ring<T>, k: nat)
    requires Shared(r, k) && ConsumerOk(r, k) && r.consumer.ConsumerBoth?
    ensures var ConsumerBoth(_, f, b, held) := r.consumer;
      (After(r, b) == f <==> held == Pow2(k) - 1) && (b == f <==> held == 0)
  {
    EmptyTest(|r.dequeued|, r.consumer.held, Pow2(k));
    FullTest(r, k, |r.dequeued|, r.consumer.held);
  }

  lemma ConsumerDecidesLogged<T>(r: Ring<T>, k: nat)
    requires Inv(r, k) && r.consumer.ConsumerBoth?
    ensures Logged(ConsumerDecides(r), Pow2(k))
  {
    hide After, Logged;
    var ConsumerBoth(call, f, b, held) := r.consumer;
    var r' := ConsumerDecides(r);
    ConsumerTests(r, k);
    match call
    case ConsumerIsFull => PeekLogged(r, r', FullIs(After(r, b) == f, held), Pow2(k));
    case ConsumerIsEmpty => PeekLogged(r, r', EmptyIs(b == f, held), Pow2(k));
    case Dequeue => PeekLogged(r, r', Dequeueing(b != f, held), Pow2(k));
  }

  lemma ConsumerDecidesKeeps<T>(r: Ring<T>, k: nat)
    requires Inv(r, k) && r.consumer.ConsumerBoth?
    ensures Inv(ConsumerDecides(r), k)
  {
    hide After, Logged;
    ConsumerDecidesLogged(r, k);
    ConsumerTests(r, k);
  }

  /** The store of the front index gives the cell back. */
  lemma ReleaseKeeps<T>(r: Ring<T>, k: nat)
    requires Inv(r, k) && r.consumer.Read?
    ensures Inv(ConsumerStep(r), k)
  {
    AfterCounts(r, k, |r.dequeued|);
  }

  lemma ConsumerKeeps<T>(r: Ring<T>, k: nat)
    requires Inv(r, k)
    ensures Inv(ConsumerStep(r), k)
  {
    match r.consumer
    case ConsumerIdle =>
    case ConsumerFront(_, _) =>
    case ConsumerBoth(_, _, _, _) => ConsumerDecidesKeeps(r, k);
    case Reading(_) =>
    case Read(_, _) => ReleaseKeeps(r, k);
  }

  lemma NextKeeps<T>(r: Ring<T>, k: nat, a: Action<T>)
    requires Inv(r, k)
    ensures Inv(Next(r, a), k)
  {
    match a
    case CallProducer(_) =>
    case Produce(torn) => ProducerKeeps(r, k, torn);
    case CallConsumer(_) =>
    case Consume => ConsumerKeeps(r, k);
  }

  lemma {:induction false} RunKeeps<T>(r: Ring<T>, k: nat, actions: seq<Action<T>>)
    requires Inv(r, k)
    ensures Inv(Run(r, actions), k)
    decreases |actions|
  {
    if actions != [] {
      NextKeeps(r, k, actions[0]);
      RunKeeps(Next(r, actions[0]), k, actions[1..]);
    }
  }

  // -------------------------------------------------------------------------------------
  // What every interleaving promises
  // -------------------------------------------------------------------------------------

  /** The cell the producer may be writing. */
  function WriteCell<T>(r: Ring<T>): (c: Option<nat>) {
    match r.producer
    case Writing(_, b) => Some(b)
    case Written(_, b) => Some(b)
    case _ => None
  }

  /** The cell the consumer may be reading. */
  function ReadCell<T>(r: Ring<T>): (c: Option<nat>) {
    match r.consumer
    case Reading(f) => Some(f)
    case Read(_, f) => Some(f)
    case _ => None
  }

  /**
   In every interleaving from an empty ring: no index is out of bounds, what was enqueued is what
   the accepted calls asked for, what was dequeued is a prefix of what was enqueued, at most
   `capacity - 1` items are in flight, the two sides are never at the same cell, and every answer
   is exact at its deciding load.
   */
  lemma EveryInterleaving<T>(buffer: seq<T>, k: nat, actions: seq<Action<T>>)
    requires |buffer| == Pow2(k)
    ensures var r := Run(Initial(buffer), actions);
      && !r.panicked
      && Decided(r.answers) + Undecided(r) == r.asked
      && Accepted(r.answers) == r.enqueued + Unpublished(r)
      && r.dequeued <= r.enqueued
      && InFlight(r) <= |buffer| - 1
      && (WriteCell(r).Some? && ReadCell(r).Some? ==> WriteCell(r) != ReadCell(r))
      && (forall i :: 0 <= i < |r.answers| ==> Truthful(r.answers[i], |buffer|))
  {
    var r := Run(Initial(buffer), actions);
    assert Inv(Initial(buffer), k);
    RunKeeps(Initial(buffer), k, actions);
    if WriteCell(r).Some? && ReadCell(r).Some? {
      Apart(|r.dequeued|, |r.enqueued|, Pow2(k));
    }
  }
}
