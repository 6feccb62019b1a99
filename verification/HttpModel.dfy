/**
 The receive buffer of an HTTP connection as a value, and whole connections: chunks of data
 arrive, requests are answered, and at any chunk boundary the connection may be serialised on
 one server and deserialised on another.
 */
module HttpModel {
  import opened Options
  import opened HttpSplit
  import opened Words

  const BUFSZ: nat := 4096

  /** The unread bytes and the end of them in the buffer. */
  datatype Buf = Buf(unread: seq<byte>, head: nat)

  const EMPTY: Buf := Buf([], 0)

  /** An empty buffer starts at its beginning. */
  predicate Good(b: Buf) {
    |b.unread| <= b.head <= BUFSZ && (b.unread == [] ==> b.head == 0)
  }

  /** `try_shrink`; nothing stands for the "Need larger buffer" panic. */
  function Shrink(b: Buf): (r: Option<Buf>) {
    if b.unread == [] then Some(EMPTY)
    else if b.head < BUFSZ then Some(b)
    else if |b.unread| == BUFSZ then None
    else Some(b.(head := |b.unread|))
  }

  /** What a push did: requests were answered, or the data did not fit, or `try_shrink` panicked. */
  datatype Outcome = Answered(b: Buf, requests: seq<seq<byte>>) | Overflow | NeedLarger

  /** The loop of `push_data_and_run`. */
  function Answer(b: Buf): (r: Outcome)
    decreases |b.unread|
  {
    var i := Find(b.unread);
    if i.None? then Answered(b, [])
    else
      var s := Shrink(b.(unread := b.unread[i.value + 4..]));
      if s.None? then NeedLarger
      else
        var r := Answer(s.value);
        if r.Answered? then r.(requests := [b.unread[..i.value + 4]] + r.requests) else r
  }

  /** Nothing is buffered and the data is exactly one request. */
  predicate FastPath(b: Buf, data: seq<byte>) {
    b.unread == [] && |data| >= 4 && Find(data) == Some(|data| - 4)
  }

  /** `push_data_and_run`. */
  function Push(b: Buf, data: seq<byte>): (r: Outcome) {
    if FastPath(b, data) then Answered(b, [data])
    else if b.head + |data| > BUFSZ then Overflow
    else Answer(Buf(b.unread + data, b.head + |data|))
  }

  // -------------------------------------------------------------------------------------
  // What a push comes to
  // -------------------------------------------------------------------------------------

  /** Where the unread bytes end after the loop: they move only from the very end of the buffer. */
  function HeadAfter(unread: seq<byte>, head: nat): (r: int) {
    var c := Split(unread);
    if c.requests == [] then head
    else if c.rest == [] then 0
    else if head == BUFSZ then |unread| - |c.requests[0]|
    else head
  }

  /** The loop answers the greedy split and never needs a larger buffer. */
  lemma {:induction false} AnswerSplits(b: Buf)
    requires |b.unread| <= b.head <= BUFSZ
    ensures Answer(b).Answered?
    ensures Answer(b).requests == Split(b.unread).requests && Answer(b).b.unread == Split(b.unread).rest
    ensures Answer(b).b.head == HeadAfter(b.unread, b.head)
    ensures |Answer(b).b.unread| <= Answer(b).b.head <= BUFSZ
    decreases |b.unread|
  {
    if Find(b.unread).Some? {
      var i := Find(b.unread).value;
      var q, t := b.unread[..i + 4], b.unread[i + 4..];
      SplitOnce(b.unread, q, t);
      var b' := Shrink(b.(unread := t)).value;
      hide Find, Split;
      AnswerSplits(b');
      SplitOfNothing();
    }
  }

  lemma NoRequests(s: seq<byte>)
    ensures Split(s).requests == [] ==> Split(s).rest == s
  {
  }

  lemma SplitOfNothing()
    ensures Split([]) == Cut([], [])
  {
  }

  /** Where the loop gets to from here, having answered some requests already. */
  ghost function Onwards(b: Buf, done: seq<seq<byte>>): (r: Outcome) {
    var r := Answer(b);
    if r.Answered? then r.(requests := done + r.requests) else r
  }

  /** One turn of the loop. */
  lemma AnswerOnce(b: Buf, i: nat, done: seq<seq<byte>>)
    requires |b.unread| <= b.head <= BUFSZ && Find(b.unread) == Some(i)
    ensures i + 4 <= |b.unread|
    ensures var b' := Shrink(b.(unread := b.unread[i + 4..]));
      b'.Some? && Onwards(b, done) == Onwards(b'.value, done + [b.unread[..i + 4]])
  {
    var b' := Shrink(b.(unread := b.unread[i + 4..])).value;
    AnswerSplits(b');
    Regroup(done, [b.unread[..i + 4]], Answer(b').requests);
  }

  lemma NothingOnwards(b: Buf, done: seq<seq<byte>>)
    requires Find(b.unread).None?
    ensures Onwards(b, done) == Answered(b, done)
  {
  }

  lemma OnwardsFromStart(b: Buf)
    requires |b.unread| <= b.head <= BUFSZ
    ensures Onwards(b, []) == Answer(b)
  {
    AnswerSplits(b);
  }

  /** Can this data be taken? What the caller can check beforehand. */
  predicate Fits(b: Buf, data: seq<byte>) {
    FastPath(b, data) || b.head + |data| <= 4096
  }

  /** The greedy split of what was unread with the data after it, and where that leaves the buffer. */
  ghost predicate Handled(b: Buf, data: seq<byte>, r: Outcome) {
    && r.Answered?
    && Good(r.b)
    && r.requests == Split(b.unread + data).requests
    && r.b.unread == Split(b.unread + data).rest
    && r.b.head == if FastPath(b, data) then 0 else HeadAfter(b.unread + data, b.head + |data|)
  }

  lemma FastHandles(b: Buf, data: seq<byte>)
    requires Good(b) && FastPath(b, data)
    ensures Handled(b, data, Push(b, data))
  {
    assert b.unread + data == data;
    SplitOfWhole(data);
  }

  lemma LoopHandles(b: Buf, data: seq<byte>)
    requires Good(b) && !FastPath(b, data) && b.head + |data| <= BUFSZ
    ensures Handled(b, data, Push(b, data))
  {
    hide Find, Split, Answer, FastPath;
    AnswerSplits(Buf(b.unread + data, b.head + |data|));
    NoRequests(b.unread + data);
  }

  /**
   One push, by whichever path: it fails exactly if the data does not fit, and otherwise it
   answers the greedy split.
   */
  lemma PushSplits(b: Buf, data: seq<byte>)
    requires Good(b)
    ensures if Fits(b, data) then Handled(b, data, Push(b, data)) else Push(b, data).Overflow?
  {
    if FastPath(b, data) {
      FastHandles(b, data);
    } else if Fits(b, data) {
      LoopHandles(b, data);
    }
  }

  // -------------------------------------------------------------------------------------
  // Serialisation
  // -------------------------------------------------------------------------------------

  const WORD: nat := 0x1_0000_0000

  /** `(n as u32).to_be_bytes()`. */
  function ToBytes(n: nat): (s: seq<byte>)
    ensures |s| == 4
  {
    [n / 0x1000000 % 256, n / 0x10000 % 256, n / 0x100 % 256, n % 256]
  }

  /** `u32::from_be_bytes`. */
  function FromBytes(s: seq<byte>): (n: nat)
    requires |s| >= 4
    ensures n < WORD
  {
    var a: nat, b: nat, c: nat, d: nat := s[0], s[1], s[2], s[3];
    0x1000000 * a + 0x10000 * b + 0x100 * c + d
  }

  lemma BytesRoundTrip(n: nat)
    ensures FromBytes(ToBytes(n)) == n % WORD
  {
    var a, b, c := n / 256, n / 0x10000, n / 0x1000000;
    assert b == a / 256 && c == b / 256;
    UniqueRemainder(n, WORD, c / 256, 0x1000000 * (c % 256) + 0x10000 * (b % 256) + 0x100 * (a % 256) + n % 256);
  }

  /** The most significant byte comes first: the bytes of a word are in the order of its digits to base 256. */
  lemma BigEndian(n: nat)
    requires n < 0x1_0000_0000
    ensures var top: int := ToBytes(n)[0]; 0x100_0000 * top <= n < 0x100_0000 * (top + 1)
    ensures n < 256 ==> ToBytes(n) == [0, 0, 0, n]
  {
  }

  /** A length and then the bytes. */
  function Counted(data: seq<byte>): (s: seq<byte>)
    ensures |s| == 4 + |data|
  {
    ToBytes(|data|) + data
  }

  /** The bytes a length announces; nothing stands for a slice out of range. */
  function ReadCounted(s: seq<byte>): (r: Option<seq<byte>>) {
    if |s| < 4 || |s| < 4 + FromBytes(s) then None else Some(s[4..4 + FromBytes(s)])
  }

  /** A connection: its buffer and its session data. */
  datatype Connection = Connection(buffer: Buf, session: seq<byte>)

  /** `ConnectionState::serialize`: the buffer's unread bytes, then the session data. */
  function Serialize(c: Connection): (s: seq<byte>) {
    Counted(c.buffer.unread) + Counted(c.session)
  }

  /** `ConnectionState::deserialize`; nothing stands for a panic. */
  function Deserialize(s: seq<byte>): (r: Option<Connection>) {
    var unread := ReadCounted(s);
    if unread.None? || |unread.value| > BUFSZ then None
    else
      var session := ReadCounted(s[4 + |unread.value|..]);
      if session.None? then None
      else Some(Connection(Buf(unread.value, |unread.value|), session.value))
  }

  /** What lies where: the buffer's length and unread bytes, then the session's length and data. */
  lemma WireFormat(c: Connection)
    ensures var s, u := Serialize(c), |c.buffer.unread|;
      && |s| == 8 + u + |c.session|
      && FromBytes(s) == u % 0x1_0000_0000 && s[4..4 + u] == c.buffer.unread
      && FromBytes(s[4 + u..]) == |c.session| % 0x1_0000_0000 && s[8 + u..] == c.session
  {
    var s, u := Serialize(c), |c.buffer.unread|;
    BytesRoundTrip(u);
    BytesRoundTrip(|c.session|);
    FirstFour(ToBytes(u), c.buffer.unread, Counted(c.session));
    assert s[4 + u..] == ToBytes(|c.session|) + c.session + [];
    FirstFour(ToBytes(|c.session|), c.session, []);
    hide ToBytes, FromBytes;
    assert s == ToBytes(u) + c.buffer.unread + Counted(c.session);
  }

  lemma CountedRoundTrip(data: seq<byte>, tail: seq<byte>)
    ensures ReadCounted(Counted(data) + tail) == Some(data[..|data| % WORD])
  {
    BytesRoundTrip(|data|);
    var s, n := Counted(data) + tail, |data| % WORD;
    FirstFour(ToBytes(|data|), data, tail);
    hide ToBytes, FromBytes;
    assert s[4..4 + n] == data[..n];
  }

  lemma FirstFour(a: seq<byte>, b: seq<byte>, c: seq<byte>)
    requires |a| == 4
    ensures FromBytes(a + b + c) == FromBytes(a)
  {
  }

  /**
   What deserialising a serialised connection gives, whatever bytes follow: the same unread
   bytes moved to the start of a fresh buffer, and the session data cut to a 32-bit length.
   */
  lemma DeserializeSerialize(c: Connection, tail: seq<byte>)
    requires Good(c.buffer)
    ensures Deserialize(Serialize(c) + tail) ==
      Some(Connection(Buf(c.buffer.unread, |c.buffer.unread|), c.session[..|c.session| % WORD]))
  {
    var unread := c.buffer.unread;
    var s := Serialize(c) + tail;
    assert s == Counted(unread) + (Counted(c.session) + tail);
    CountedRoundTrip(unread, Counted(c.session) + tail);
    assert unread[..|unread| % WORD] == unread;
    assert s[4 + |unread|..] == Counted(c.session) + tail;
    CountedRoundTrip(c.session, tail);
  }

  /** The same connection, as far as its streams and its session go. */
  predicate Same(c: Connection, d: Connection) {
    d.buffer.unread == c.buffer.unread && d.session == c.session
  }

  /** Migration preserves a connection if and only if its session data has a 32-bit length. */
  lemma MigrationPreservesIff(c: Connection, tail: seq<byte>)
    requires Good(c.buffer)
    ensures var d := Deserialize(Serialize(c) + tail);
      && d.Some? && Good(d.value.buffer)
      && (Same(c, d.value) <==> |c.session| < 0x1_0000_0000)
      && d.value.buffer.head <= c.buffer.head
  {
    DeserializeSerialize(c, tail);
    hide Deserialize, Serialize;
    var n := |c.session|;
    if n < WORD {
      assert c.session[..n % WORD] == c.session;
    } else {
      assert |c.session[..n % WORD]| < n;
    }
  }

  /** Right after a migration there is room for whatever there was room for before. */
  lemma FitsAfterMigration(c: Connection, tail: seq<byte>, data: seq<byte>)
    requires Good(c.buffer) && Fits(c.buffer, data)
    ensures var d := Deserialize(Serialize(c) + tail); d.Some? && Fits(d.value.buffer, data)
  {
    DeserializeSerialize(c, tail);
  }

  // -------------------------------------------------------------------------------------
  // Whole connections
  // -------------------------------------------------------------------------------------

  /** Data arrives, or the connection moves to another server (with `tail` after its bytes). */
  datatype Event = Chunk(data: seq<byte>) | Migrate(tail: seq<byte>)

  /** A connection that was served so far, or a panic. */
  datatype Service = Serving(c: Connection, answered: seq<seq<byte>>) | Panicked

  function Step(c: Connection, e: Event): (r: Service) {
    match e
    case Chunk(data) =>
      var r := Push(c.buffer, data);
      if r.Answered? then Serving(c.(buffer := r.b), r.requests) else Panicked
    case Migrate(tail) =>
      var r := Deserialize(Serialize(c) + tail);
      if r.Some? then Serving(r.value, []) else Panicked
  }

  function Serve(c: Connection, events: seq<Event>): (r: Service)
    decreases |events|
  {
    if events == [] then Serving(c, [])
    else
      var s := Step(c, events[0]);
      if s.Panicked? then Panicked
      else
        var r := Serve(s.c, events[1..]);
        if r.Panicked? then Panicked else r.(answered := s.answered + r.answered)
  }

  /** The bytes that arrived. */
  function Stream(events: seq<Event>): (s: seq<byte>) {
    if events == [] then []
    else (if events[0].Chunk? then events[0].data else []) + Stream(events[1..])
  }

  function NatOf(x: int): (n: nat) {
    if x < 0 then 0 else x
  }

  /** The connection after a chunk that fits. */
  function AfterChunk(c: Connection, data: seq<byte>): (r: Connection) {
    var s := c.buffer.unread + data;
    var head := if FastPath(c.buffer, data) then 0 else NatOf(HeadAfter(s, c.buffer.head + |data|));
    c.(buffer := Buf(Split(s).rest, head))
  }

  /** The connection after a migration. */
  function AfterMigration(c: Connection): (r: Connection) {
    c.(buffer := Buf(c.buffer.unread, |c.buffer.unread|))
  }

  /** Every chunk fits when its turn comes. */
  predicate AllFit(c: Connection, events: seq<Event>)
    decreases |events|
  {
    if events == [] then true
    else match events[0]
      case Chunk(data) => Fits(c.buffer, data) && AllFit(AfterChunk(c, data), events[1..])
      case Migrate(_) => AllFit(AfterMigration(c), events[1..])
  }

  lemma ChunkStep(c: Connection, data: seq<byte>)
    requires Good(c.buffer)
    ensures Step(c, Chunk(data)) ==
      if Fits(c.buffer, data) then Serving(AfterChunk(c, data), Split(c.buffer.unread + data).requests) else Panicked
    ensures Fits(c.buffer, data) ==> Good(AfterChunk(c, data).buffer)
  {
    PushSplits(c.buffer, data);
    hide Fits, FastPath, Push, HeadAfter, Split, Find;
  }

  lemma MigrateStep(c: Connection, tail: seq<byte>)
    requires Good(c.buffer) && |c.session| < WORD
    ensures Step(c, Migrate(tail)) == Serving(AfterMigration(c), []) && Good(AfterMigration(c).buffer)
  {
    DeserializeSerialize(c, tail);
    assert c.session[..|c.session| % WORD] == c.session;
  }

  /** A connection is served to the end exactly if every chunk fits when its turn comes. */
  lemma {:induction false} ServedIffFits(c: Connection, events: seq<Event>)
    requires Good(c.buffer) && |c.session| < WORD
    ensures Serve(c, events).Serving? <==> AllFit(c, events)
    decreases |events|
  {
    hide Step, Fits, Split, FastPath, HeadAfter;
    if events != [] {
      match events[0]
      case Chunk(data) =>
        ChunkStep(c, data);
        if Fits(c.buffer, data) {
          ServedIffFits(AfterChunk(c, data), events[1..]);
        }
      case Migrate(tail) =>
        MigrateStep(c, tail);
        ServedIffFits(AfterMigration(c), events[1..]);
    }
  }

  /**
   However a stream is cut into chunks and however often the connection migrates between them,
   the requests answered are the greedy split of the whole stream.
   */
  lemma {:induction false} ServeSplits(c: Connection, events: seq<Event>)
    requires Good(c.buffer) && |c.session| < WORD && Serve(c, events).Serving?
    requires Find(c.buffer.unread).None?
    ensures var r := Serve(c, events); var cut := Split(c.buffer.unread + Stream(events));
      && r.answered == cut.requests
      && r.c.buffer.unread == cut.rest
      && r.c.session == c.session
    decreases |events|
  {
    if events == [] {
      assert c.buffer.unread + [] == c.buffer.unread;
    } else {
      var rest := Stream(events[1..]);
      match events[0]
      case Chunk(data) =>
        ChunkStep(c, data);
        SplitSound(c.buffer.unread + data);
        hide Step, Fits, FastPath, HeadAfter, Split, Find, Concat, AllWhole, Good;
        ServeSplits(AfterChunk(c, data), events[1..]);
        SplitAppend(c.buffer.unread + data, rest);
        Regroup(c.buffer.unread, data, rest);
      case Migrate(tail) =>
        MigrateStep(c, tail);
        hide Step, Split, Find;
        ServeSplits(AfterMigration(c), events[1..]);
        assert [] + rest == rest;
    }
  }

  /** Two histories of the same stream answer the same requests, if both are served. */
  lemma MigrationIsTransparent(session: seq<byte>, events: seq<Event>, events': seq<Event>)
    requires |session| < WORD && Stream(events) == Stream(events')
    requires AllFit(Connection(EMPTY, session), events) && AllFit(Connection(EMPTY, session), events')
    ensures var c := Connection(EMPTY, session);
      && Serve(c, events).Serving? && Serve(c, events').Serving?
      && Serve(c, events).answered == Serve(c, events').answered == Split(Stream(events)).requests
      && Same(Serve(c, events).c, Serve(c, events').c)
  {
    var c := Connection(EMPTY, session);
    ServedIffFits(c, events);
    ServedIffFits(c, events');
    ServeSplits(c, events);
    ServeSplits(c, events');
    assert [] + Stream(events) == Stream(events);
  }
}
