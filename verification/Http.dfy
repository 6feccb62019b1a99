/** The receive buffer as an object over a fixed array. */
module Http {
  import opened Options
  import opened HttpSplit
  import opened HttpModel

  class Buffer {
    const buf: array<byte>
    var head: nat
    var tail: nat

    ghost predicate Valid()
      reads this
    {
      buf.Length == BUFSZ && tail <= head <= BUFSZ
    }

    ghost function View(): (b: Buf)
      requires Valid()
      reads this, buf
    {
      Buf(buf[tail..head], head)
    }

    constructor ()
      ensures Valid() && fresh(buf) && View() == EMPTY
    {
      buf := new byte[BUFSZ](_ => 0);
      head, tail := 0, 0;
    }

    method DataSize() returns (n: nat)
      requires Valid()
      ensures n == |View().unread|
    {
      n := head - tail;
    }

    /** Bytes written behind the unread ones become unread. */
    method PushData(size: nat)
      requires Valid() && head + size <= BUFSZ
      modifies `head
      ensures Valid() && head == old(head) + size
    {
      head := head + size;
    }

    method PullData(size: nat)
      requires Valid() && size <= head - tail
      modifies `tail
      ensures Valid() && View() == Buf(old(View()).unread[size..], old(View()).head)
    {
      tail := tail + size;
    }

    /** `try_shrink`; a false answer stands for its panic. */
    method TryShrink() returns (ok: bool)
      requires Valid()
      modifies this, buf
      ensures Valid()
      ensures ok <==> Shrink(old(View())).Some?
      ensures ok ==> View() == Shrink(old(View())).value
    {
      if head == tail {
        head, tail := 0, 0;
        return true;
      }
      if head < buf.Length {
        return true;
      }
      if head - tail == buf.Length {
        return false;
      }
      forall i | 0 <= i < head - tail {
        buf[i] := buf[tail + i];
      }
      head := head - tail;
      tail := 0;
      ok := true;
    }

    /** The data is copied behind the unread bytes. */
    method Append(data: seq<byte>)
      requires Valid() && head + |data| <= BUFSZ
      modifies this, buf
      ensures Valid() && View() == Buf(old(View()).unread + data, old(View()).head + |data|)
    {
      forall i | 0 <= i < |data| {
        buf[head + i] := data[i];
      }
      PushData(|data|);
      assert buf[tail..head] == old(buf[tail..head]) + data;
    }

    /** One turn of the loop: the first request, if there is one, is taken out of the buffer. */
    method AnswerNext(answered: seq<seq<byte>>) returns (request: Option<seq<byte>>)
      requires Valid()
      modifies this, buf
      ensures Valid()
      ensures request.None? ==> Onwards(old(View()), answered) == Answered(View(), answered)
      ensures request.Some? ==> |View().unread| < |old(View()).unread|
      ensures request.Some? ==> Onwards(old(View()), answered) == Onwards(View(), answered + [request.value])
    {
      hide Onwards;
      var data := buf[tail..head];
      var idx := Find(data);
      if idx.None? {
        NothingOnwards(View(), answered);
        return None;
      }
      AnswerOnce(View(), idx.value, answered);
      hide Find;
      request := Some(data[..idx.value + 4]);
      PullData(idx.value + 4);
      var ok := TryShrink();
    }

    /** The loop: requests are answered one by one, until none is complete. */
    method AnswerAll() returns (answered: seq<seq<byte>>)
      requires Valid()
      modifies this, buf
      ensures Valid()
      ensures Answer(old(View())) == Answered(View(), answered)
    {
      hide Answer, Onwards;
      ghost var start := View();
      OnwardsFromStart(start);
      answered := [];
      while true
        invariant Valid() && Onwards(View(), answered) == Answer(start)
        decreases |View().unread|
      {
        var request := AnswerNext(answered);
        if request.None? {
          return;
        }
        answered := answered + [request.value];
      }
    }

    /** Nothing is buffered and the data is exactly one request. */
    method IsSingleRequest(data: seq<byte>) returns (fast: bool)
      requires Valid()
      ensures fast <==> FastPath(View(), data)
    {
      fast := head == tail && |data| >= 4 && Find(data) == Some(|data| - 4);
    }

    /** `push_data_and_run`: the requests it answers, or nothing for a panic on data that does not fit. */
    method PushDataAndRun(data: seq<byte>) returns (r: Option<seq<seq<byte>>>)
      requires Valid() && Good(View())
      modifies this, buf
      ensures Valid() && Good(View())
      ensures r.Some? <==> Fits(old(View()), data)
      ensures r.None? ==> View() == old(View())
      ensures r.Some? ==> Push(old(View()), data) == Answered(View(), r.value)
      ensures r.Some? ==> r.value == Split(old(View()).unread + data).requests
      ensures r.Some? ==> View().unread == Split(old(View()).unread + data).rest
    {
      hide FastPath, Find, Split, Answer, HeadAfter;
      PushSplits(View(), data);
      var fast := IsSingleRequest(data);
      if fast {
        return Some([data]);
      }
      if head + |data| > buf.Length {
        return None;
      }
      Append(data);
      var answered := AnswerAll();
      r := Some(answered);
    }

    // -----------------------------------------------------------------------------------
    // Migration
    // -----------------------------------------------------------------------------------

    /** Copy a length and bytes into an output, from position `at` on. */
    static method Put(data: seq<byte>, out: array<byte>, at: nat)
      requires at + 4 + |data| <= out.Length
      modifies out
      ensures out[at..at + 4 + |data|] == Counted(data)
      ensures out[..at] == old(out[..at]) && out[at + 4 + |data|..] == old(out[at + 4 + |data|..])
    {
      var counted := Counted(data);
      forall i | 0 <= i < |counted| {
        out[at + i] := counted[i];
      }
    }

    /** `ConnectionState::serialize`: what lies behind the serialised bytes is left alone. */
    method SerializeWith(session: seq<byte>, out: array<byte>)
      requires Valid() && out != buf && 8 + |View().unread| + |session| <= out.Length
      modifies out
      ensures var s := Serialize(Connection(View(), session));
        |s| <= out.Length && out[..] == s + old(out[|s|..])
    {
      var unread := buf[tail..head];
      Put(unread, out, 0);
      Put(session, out, 4 + |unread|);
      ghost var n, m := 4 + |unread|, 8 + |unread| + |session|;
      assert out[..] == out[..n] + out[n..m] + out[m..];
    }

    /** `ConnectionState::deserialize`: a fresh buffer, or nothing for a panic. */
    static method DeserializeFrom(input: seq<byte>) returns (r: Option<Buffer>, session: seq<byte>)
      ensures r.Some? <==> Deserialize(input).Some?
      ensures r.Some? ==> fresh(r.value) && fresh(r.value.buf) && r.value.Valid()
      ensures r.Some? ==> Deserialize(input) == Some(Connection(r.value.View(), session))
    {
      var unread := ReadCounted(input);
      if unread.None? || |unread.value| > BUFSZ {
        return None, [];
      }
      var b := new Buffer();
      b.Append(unread.value);
      assert b.View().unread == unread.value;
      var rest := ReadCounted(input[4 + |unread.value|..]);
      if rest.None? {
        return None, [];
      }
      r, session := Some(b), rest.value;
    }
  }
}
