/**
 Can a migrated connection run out of buffer where the same connection, left in place, does
 not? Yes: bytes move to the start of the buffer only when they reach its very end, so a
 connection with more room may miss a compaction that one with less room gets.
 */
module HttpMigration {
  import opened Options
  import opened HttpSplit
  import opened HttpModel

  // -------------------------------------------------------------------------------------
  // Exactly when migration costs room
  // -------------------------------------------------------------------------------------

  /** This chunk fills the buffer to its end, completes a request and leaves part of another. */
  predicate Compacts(b: Buf, data: seq<byte>) {
    && !FastPath(b, data)
    && b.head + |data| == BUFSZ
    && Split(b.unread + data).requests != []
    && Split(b.unread + data).rest != []
  }

  lemma {:induction false} FirstRequest(s: seq<byte>)
    requires Split(s).requests != []
    ensures 4 <= |Split(s).requests[0]| && |Split(s).requests[0]| + |Split(s).rest| <= |s|
  {
    SplitSound(s);
    var qs, rest := Split(s).requests, Split(s).rest;
    assert Whole(qs[0]);
    assert Concat(qs) == qs[0] + Concat(qs[1..]);
    assert |s| == |Concat(qs)| + |rest|;
  }

  lemma HeadOrder(s: seq<byte>, head: nat, head': nat)
    requires |s| <= head' <= head <= BUFSZ
    ensures HeadAfter(s, head') > HeadAfter(s, head) <==>
      head == BUFSZ && head' < head && Split(s).requests != [] && Split(s).rest != []
  {
    if Split(s).requests != [] {
      FirstRequest(s);
    }
    hide Split;
  }

  /**
   Of two buffers with the same unread bytes, the one with more room takes whatever the other
   takes; and it has less room afterwards if and only if the other one compacts and it does not.
   */
  lemma RoomLostIff(b: Buf, m: Buf, data: seq<byte>)
    requires Good(b) && Good(m) && m.unread == b.unread && m.head <= b.head && Fits(b, data)
    ensures Fits(m, data) && Push(m, data).Answered? && Push(b, data).Answered?
    ensures Push(m, data).b.head > Push(b, data).b.head <==> Compacts(b, data) && m.head < b.head
  {
    PushSplits(b, data);
    PushSplits(m, data);
    if !FastPath(b, data) {
      HeadOrder(b.unread + data, b.head + |data|, m.head + |data|);
    }
    hide Split, Push, HeadAfter, Find;
  }

  // -------------------------------------------------------------------------------------
  // Whole connections
  // -------------------------------------------------------------------------------------

  /** The same history without the migrations. */
  function InPlace(events: seq<Event>): (r: seq<Event>) {
    if events == [] then [] else (if events[0].Chunk? then [events[0]] else []) + InPlace(events[1..])
  }

  /** This chunk makes the buffer compact, and there is something in front of the unread bytes to lose. */
  predicate Gains(b: Buf, data: seq<byte>) {
    Compacts(b, data) && |b.unread| < b.head
  }

  /** Left in place, the connection never gains room by compacting. */
  predicate NeverGains(c: Connection, events: seq<Event>)
    decreases |events|
  {
    if events == [] then true
    else if events[0].Migrate? then NeverGains(c, events[1..])
    else !Gains(c.buffer, events[0].data) && NeverGains(AfterChunk(c, events[0].data), events[1..])
  }

  ghost predicate Roomier(c: Connection, m: Connection) {
    Good(c.buffer) && Good(m.buffer) && m.buffer.unread == c.buffer.unread && m.buffer.head <= c.buffer.head
  }

  lemma RoomierChunk(c: Connection, m: Connection, data: seq<byte>)
    requires Roomier(c, m) && Fits(c.buffer, data) && !Gains(c.buffer, data)
    ensures Fits(m.buffer, data) && Roomier(AfterChunk(c, data), AfterChunk(m, data))
  {
    RoomLostIff(c.buffer, m.buffer, data);
    ChunkStep(c, data);
    ChunkStep(m, data);
    hide Split, Push, HeadAfter, Find, Compacts, Fits, FastPath;
  }

  lemma InPlaceChunk(events: seq<Event>)
    requires events != [] && events[0].Chunk?
    ensures InPlace(events) != [] && InPlace(events)[0] == events[0] && InPlace(events)[1..] == InPlace(events[1..])
  {
  }

  lemma InPlaceMigrate(events: seq<Event>)
    requires events != [] && events[0].Migrate?
    ensures InPlace(events) == InPlace(events[1..])
  {
    assert [] + InPlace(events[1..]) == InPlace(events[1..]);
  }

  /**
   If a connection left in place is served without ever gaining room by compacting, then it is served with
   migrations at any of its chunk boundaries too.
   */
  lemma {:induction false} MigratedFits(c: Connection, m: Connection, events: seq<Event>)
    requires Roomier(c, m) && AllFit(c, InPlace(events)) && NeverGains(c, events)
    ensures AllFit(m, events)
    decreases |events|
  {
    hide Gains, Fits, AfterChunk, Roomier;
    if events != [] {
      if events[0].Migrate? {
        InPlaceMigrate(events);
        RoomierMigration(c, m);
        MigratedFits(c, AfterMigration(m), events[1..]);
      } else {
        InPlaceChunk(events);
        RoomierChunk(c, m, events[0].data);
        MigratedFits(AfterChunk(c, events[0].data), AfterChunk(m, events[0].data), events[1..]);
      }
    }
  }

  lemma RoomierMigration(c: Connection, m: Connection)
    requires Roomier(c, m)
    ensures Roomier(c, AfterMigration(m))
  {
  }

  // -------------------------------------------------------------------------------------
  // A connection that survives in place and not when migrated
  // -------------------------------------------------------------------------------------

  function Fill(n: nat, x: byte): (s: seq<byte>)
    ensures |s| == n && forall i :: 0 <= i < n ==> s[i] == x
  {
    seq(n, _ => x)
  }

  lemma NoTerminator(s: seq<byte>)
    requires forall i :: 0 <= i < |s| ==> s[i] != CR
    ensures Split(s) == Cut([], s)
  {
  }

  lemma FindOnly(a: seq<byte>, b: seq<byte>)
    requires forall i :: 0 <= i < |a| ==> a[i] != CR
    ensures Find(a + TERMINATOR + b) == Some(|a|)
  {
    var s := a + TERMINATOR + b;
    assert EndsAt(s, |a|);
    forall j | 0 <= j < |a|
      ensures !EndsAt(s, j)
    {
      assert s[j] == a[j];
    }
  }

  lemma OneTerminator(a: seq<byte>, b: seq<byte>)
    requires forall i :: 0 <= i < |a| ==> a[i] != CR
    requires forall i :: 0 <= i < |b| ==> b[i] != CR
    ensures Find(a + TERMINATOR + b) == Some(|a|)
    ensures Split(a + TERMINATOR + b) == Cut([a + TERMINATOR], b)
  {
    FindOnly(a, b);
    NoTerminator(b);
    hide Find, Split;
    SplitOnce(a + TERMINATOR + b, a + TERMINATOR, b);
  }

  const FILLER: byte := 120

  /** 100 bytes: a request of 96, and 4 bytes of the next. */
  function First(): (s: seq<byte>) {
    Fill(92, FILLER) + TERMINATOR + Fill(4, FILLER)
  }

  /** 3996 bytes: the end of that request, and 3992 bytes of the next. */
  function Second(): (s: seq<byte>) {
    TERMINATOR + Fill(3992, FILLER)
  }

  /** 100 bytes more. */
  function Third(): (s: seq<byte>) {
    Fill(100, FILLER)
  }

  lemma AfterFirst(session: seq<byte>)
    ensures Fits(EMPTY, First())
    ensures AfterChunk(Connection(EMPTY, session), First()) == Connection(Buf(Fill(4, FILLER), 100), session)
  {
    OneTerminator(Fill(92, FILLER), Fill(4, FILLER));
    assert [] + First() == First();
  }

  /** Both ways it is the same request, but only a full buffer is compacted. */
  lemma AfterSecond(session: seq<byte>, head: nat)
    requires head == 100 || head == 4
    ensures Fits(Buf(Fill(4, FILLER), head), Second())
    ensures AfterChunk(Connection(Buf(Fill(4, FILLER), head), session), Second()) ==
      Connection(Buf(Fill(3992, FILLER), if head == 100 then 3992 else 4000), session)
  {
    OneTerminator(Fill(4, FILLER), Fill(3992, FILLER));
    assert Fill(4, FILLER) + Second() == Fill(4, FILLER) + TERMINATOR + Fill(3992, FILLER);
  }

  lemma ThirdFitsIff(head: nat)
    requires head == 3992 || head == 4000
    ensures Fits(Buf(Fill(3992, FILLER), head), Third()) <==> head == 3992
  {
  }

  /** A chunk that fills the buffer to its end fits, and fits no buffer with less room. */
  lemma FillerFits(b: Buf, m: Buf)
    requires Good(b) && Good(m) && b.unread == m.unread != [] && b.head < m.head
    ensures Fits(b, Fill(BUFSZ - b.head, FILLER)) && !Fits(m, Fill(BUFSZ - b.head, FILLER))
  {
  }

  lemma RoomierFits(b: Buf, m: Buf, next: seq<byte>)
    requires b.unread == m.unread && m.head <= b.head && Fits(b, next)
    ensures Fits(m, next)
  {
  }

  /**
   Exactly when a migration before a chunk can make a later one fail: some next chunk is served in
   place and panics after the migration if and only if this chunk makes the buffer in place compact
   and the buffer had bytes in front of the unread ones to lose.
   */
  lemma OverflowIff(b: Buf, data: seq<byte>)
    requires Good(b) && Fits(b, data)
    ensures var m := Buf(b.unread, |b.unread|);
      && Push(b, data).Answered? && Push(m, data).Answered?
      && ((exists next :: Fits(Push(b, data).b, next) && !Fits(Push(m, data).b, next)) <==>
            Gains(b, data))
  {
    var m := Buf(b.unread, |b.unread|);
    RoomLostIff(b, m, data);
    PushSplits(b, data);
    PushSplits(m, data);
    var b', m' := Push(b, data).b, Push(m, data).b;
    assert Compacts(b, data) ==> b'.unread != [];
    hide Push, Split, HeadAfter, Find, Fits, Compacts, FastPath;
    if b'.head < m'.head {
      FillerFits(b', m');
    } else {
      forall next | Fits(b', next)
        ensures Fits(m', next)
      {
        RoomierFits(b', m', next);
      }
    }
  }

  /**
   "A migrated stream is served whenever the unmigrated one is" is false: these three chunks are
   served in place, and a migration after the first makes the third one panic.
   */
  lemma MigrationCanOverflow(session: seq<byte>, tail: seq<byte>)
    requires |session| < HttpModel.WORD
    ensures var c := Connection(EMPTY, session);
      && Serve(c, [Chunk(First()), Chunk(Second()), Chunk(Third())]).Serving?
      && Serve(c, [Chunk(First()), Migrate(tail), Chunk(Second()), Chunk(Third())]).Panicked?
  {
    var c := Connection(EMPTY, session);
    var a, b, d := Chunk(First()), Chunk(Second()), Chunk(Third());
    ServedIffFits(c, [a, b, d]);
    ServedIffFits(c, [a, Migrate(tail), b, d]);
    AfterFirst(session);
    AfterSecond(session, 100);
    AfterSecond(session, 4);
    ThirdFitsIff(3992);
    ThirdFitsIff(4000);
    hide First, Second, Third, Fits, AfterChunk, Serve, Fill;
    assert [a, b, d][1..] == [b, d] && [b, d][1..] == [d] && [d][1..] == [];
    assert [a, Migrate(tail), b, d][1..] == [Migrate(tail), b, d] && [Migrate(tail), b, d][1..] == [b, d];
    var c1 := Connection(Buf(Fill(4, FILLER), 100), session);
    var c2 := Connection(Buf(Fill(3992, FILLER), 3992), session);
    assert AllFit(AfterChunk(c2, Third()), []);
    assert AllFit(c2, [d]);
    assert AllFit(c1, [b, d]);
    assert !AllFit(Connection(Buf(Fill(3992, FILLER), 4000), session), [d]);
    assert !AllFit(AfterMigration(c1), [b, d]);
    assert !AllFit(c1, [Migrate(tail), b, d]);
  }
}
