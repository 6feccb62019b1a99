/** Cutting a byte stream into requests at the empty line that ends a header section. */
module HttpSplit {
  import opened Options

  type byte = x: int | 0 <= x < 256

  const CR: byte := 13
  const LF: byte := 10
  const TERMINATOR: seq<byte> := [CR, LF, CR, LF]

  /** The terminator starts at position `i`. */
  predicate EndsAt(s: seq<byte>, i: nat) {
    i + 4 <= |s| && s[i] == CR && s[i + 1] == LF && s[i + 2] == CR && s[i + 3] == LF
  }

  function FindFrom(s: seq<byte>, i: nat): (r: Option<nat>)
    ensures r.Some? ==> i <= r.value && EndsAt(s, r.value) && forall j :: i <= j < r.value ==> !EndsAt(s, j)
    ensures r.None? ==> forall j :: i <= j ==> !EndsAt(s, j)
    decreases |s| - i
  {
    if i + 4 > |s| then None else if EndsAt(s, i) then Some(i) else FindFrom(s, i + 1)
  }

  /** `find_subsequence` for the terminator: its first position. */
  function Find(s: seq<byte>): (r: Option<nat>)
    ensures r.Some? <==> exists i :: EndsAt(s, i)
    ensures r.Some? ==> EndsAt(s, r.value) && forall j :: 0 <= j < r.value ==> !EndsAt(s, j)
  {
    FindFrom(s, 0)
  }

  datatype Cut = Cut(requests: seq<seq<byte>>, rest: seq<byte>)

  /** The greedy split: requests are cut off at each terminator, from the left. */
  function Split(s: seq<byte>): (r: Cut)
    decreases |s|
  {
    var i := Find(s);
    if i.None? then Cut([], s)
    else
      var r := Split(s[i.value + 4..]);
      Cut([s[..i.value + 4]] + r.requests, r.rest)
  }

  function Concat(qs: seq<seq<byte>>): (s: seq<byte>) {
    if qs == [] then [] else qs[0] + Concat(qs[1..])
  }

  /** A request: it ends with the terminator and does not contain it before. */
  predicate Whole(q: seq<byte>) {
    |q| >= 4 && Find(q) == Some(|q| - 4)
  }

  ghost predicate AllWhole(qs: seq<seq<byte>>) {
    forall k :: 0 <= k < |qs| ==> Whole(qs[k])
  }

  /** The first terminator of a sequence stays first when more follows. */
  lemma FindExtends(s: seq<byte>, t: seq<byte>, i: nat)
    requires Find(s) == Some(i)
    ensures Find(s + t) == Some(i)
  {
    assert EndsAt(s + t, i);
    forall j | 0 <= j < i
      ensures !EndsAt(s + t, j)
    {
      assert !EndsAt(s, j);
    }
  }

  lemma FoundIsWhole(s: seq<byte>, i: nat)
    requires Find(s) == Some(i)
    ensures Whole(s[..i + 4])
  {
    var q := s[..i + 4];
    assert EndsAt(q, i);
    forall j | 0 <= j < i
      ensures !EndsAt(q, j)
    {
      assert !EndsAt(s, j);
    }
  }

  /** One cut. */
  lemma SplitOnce(s: seq<byte>, q: seq<byte>, t: seq<byte>)
    requires |q| >= 4 && s == q + t && Find(s) == Some(|q| - 4)
    ensures Split(s).requests == [q] + Split(t).requests
    ensures Split(s).rest == Split(t).rest
  {
    assert s[..|q|] == q && s[|q|..] == t;
  }

  lemma ConcatCons(q: seq<byte>, qs: seq<seq<byte>>)
    ensures Concat([q] + qs) == q + Concat(qs)
  {
    assert ([q] + qs)[1..] == qs;
  }

  lemma {:induction false} SplitLosesNothing(s: seq<byte>)
    ensures Concat(Split(s).requests) + Split(s).rest == s
    decreases |s|
  {
    if Find(s).Some? {
      var i := Find(s).value;
      var q, t := s[..i + 4], s[i + 4..];
      SplitOnce(s, q, t);
      SplitLosesNothing(t);
      ConcatCons(q, Split(t).requests);
      var c, r := Concat(Split(t).requests), Split(t).rest;
      hide Find, Split, Concat;
      Regroup(q, c, r);
    }
  }

  lemma {:induction false} SplitAtTerminators(s: seq<byte>)
    ensures AllWhole(Split(s).requests) && Find(Split(s).rest).None?
    decreases |s|
  {
    if Find(s).Some? {
      var i := Find(s).value;
      var q, t := s[..i + 4], s[i + 4..];
      FoundIsWhole(s, i);
      SplitOnce(s, q, t);
      hide Find, Split, Whole;
      SplitAtTerminators(t);
    }
  }

  /** The split loses nothing, cuts at terminators only, and leaves no terminator behind. */
  lemma SplitSound(s: seq<byte>)
    ensures Concat(Split(s).requests) + Split(s).rest == s
    ensures AllWhole(Split(s).requests) && Find(Split(s).rest).None?
  {
    hide Find, Split, Whole, Concat, AllWhole;
    SplitLosesNothing(s);
    SplitAtTerminators(s);
  }

  /** There is no other way to do that. */
  lemma {:induction false} SplitUnique(qs: seq<seq<byte>>, rest: seq<byte>)
    requires AllWhole(qs) && Find(rest).None?
    ensures Split(Concat(qs) + rest) == Cut(qs, rest)
    decreases |qs|
  {
    if qs == [] {
      assert Concat(qs) + rest == rest;
    } else {
      var q, t := qs[0], Concat(qs[1..]) + rest;
      assert Whole(q);
      FindExtends(q, t, |q| - 4);
      Regroup(q, Concat(qs[1..]), rest);
      SplitOnce(q + t, q, t);
      SplitUnique(qs[1..], rest);
      hide Find, Split;
      assert [q] + qs[1..] == qs;
    }
  }

  /** Splitting a stream can stop anywhere and go on with what is left. */
  lemma {:induction false} SplitAppend(a: seq<byte>, b: seq<byte>)
    ensures Split(a + b).requests == Split(a).requests + Split(Split(a).rest + b).requests
    ensures Split(a + b).rest == Split(Split(a).rest + b).rest
    decreases |a|
  {
    if Find(a).Some? {
      var i := Find(a).value;
      var q, t := a[..i + 4], a[i + 4..];
      FindExtends(a, b, i);
      Regroup(q, t, b);
      SplitOnce(a, q, t);
      SplitOnce(a + b, q, t + b);
      hide Find, Split;
      SplitAppend(t, b);
      Regroup([q], Split(t).requests, Split(Split(t).rest + b).requests);
    }
  }

  /** A whole request is split into itself. */
  lemma SplitOfWhole(q: seq<byte>)
    requires Whole(q)
    ensures Split(q) == Cut([q], [])
  {
    assert q[|q|..] == [] && q[..|q|] == q;
  }
}
