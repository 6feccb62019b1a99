/** The HTTP server's token loop on top of `wait_any2` and the scheduler. */
module ServerModel {
  import opened Options
  import opened KeySpace
  import opened SlabModel
  import opened SchedulerModel
  import opened WaitModel

  // -------------------------------------------------------------------------------------
  // Handling the results
  // -------------------------------------------------------------------------------------

  /** The results the server expects; anything else makes it panic. */
  datatype Answer =
    | Accepted                          // issues a pop and an accept
    | Pushed                            // issues nothing
    | Popped(sent: nat, rearm: bool)    // issues a push per request, and the next pop
    | Migrated                          // the connection moved away: issues nothing
    | Unexpected

  /** How many accepts, pushes and pops. */
  datatype Operations = Operations(accepts: int, pushes: int, pops: int)

  /** What an answer has the server start. */
  function Follows(a: Answer): (o: Operations)
    ensures o.accepts >= 0 && o.pushes >= 0 && o.pops >= 0
  {
    match a
    case Accepted => Operations(1, 0, 1)
    case Pushed => Operations(0, 0, 0)
    case Popped(sent, rearm) => Operations(0, sent, if rearm then 1 else 0)
    case Migrated => Operations(0, 0, 0)
    case Unexpected => Operations(0, 0, 0)
  }

  function TokensIssued(a: Answer): (n: nat) {
    Follows(a).accepts + Follows(a).pushes + Follows(a).pops
  }

  /** `Vec::swap_remove`: the last element takes the place of the removed one. */
  function SwapRemove(q: seq<nat>, i: nat): (r: seq<nat>)
    requires i < |q|
  {
    q[i := q[|q| - 1]][..|q| - 1]
  }

  /** The server's state: the scheduler, its token vector, and whether it panicked. */
  datatype Server = Server(s: Sched, qts: seq<nat>, crashed: bool)

  /**
   Schedule one operation and push its token; a refused insertion is unwrapped. The token is the key
   that `into_raw` takes out of the handle before the handle's destructor runs.
   */
  function IssueOnce(v: Server): (r: Server)
    ensures r.s.legal == v.s.legal
  {
    var i := SchedulerModel.Insert(v.s, Operation);
    if i.key.None? then v.(s := i.s, crashed := true)
    else Server(Destroy(i.s, KeyTaken(Handle(i.key))), v.qts + [i.key.value], v.crashed)
  }

  /** Schedule `n` operations. */
  function Issue(v: Server, n: nat): (r: Server)
    ensures r.s.legal == v.s.legal
    decreases n
  {
    if n == 0 || v.crashed then v else Issue(IssueOnce(v), n - 1)
  }

  /** One completed result: its token is swapped out, then its follow-ups are issued. */
  function HandleOne(v: Server, index: nat, a: Answer): (r: Server)
    ensures r.s.legal == v.s.legal
  {
    if v.crashed || index >= |v.qts| || a.Unexpected? then v.(crashed := true)
    else Issue(v.(qts := SwapRemove(v.qts, index)), TokensIssued(a))
  }

  /** The results are handled in reverse order of their indices: `j` of them are left. */
  function HandleAll(v: Server, taken: seq<nat>, answers: seq<Answer>, j: nat): (r: Server)
    requires j <= |taken| == |answers|
    ensures r.s.legal == v.s.legal
    decreases j
  {
    if j == 0 || v.crashed then v
    else HandleAll(HandleOne(v, taken[j - 1], answers[j - 1]), taken, answers, j - 1)
  }

  // -------------------------------------------------------------------------------------
  // What handling does to the vector
  // -------------------------------------------------------------------------------------

  lemma BagOfParts(a: seq<nat>, x: nat, b: seq<nat>, y: nat)
    ensures multiset(a + [y] + b) == multiset(a + [x] + b + [y]) - multiset{x}
  {
    assert multiset(a + [y] + b) == multiset(a) + multiset{y} + multiset(b);
    assert multiset(a + [x] + b + [y]) == multiset(a) + multiset{x} + multiset(b) + multiset{y};
  }

  lemma SwapRemoveParts(q: seq<nat>, i: nat)
    requires i < |q| - 1
    ensures q == q[..i] + [q[i]] + q[i + 1..|q| - 1] + [q[|q| - 1]]
    ensures SwapRemove(q, i) == q[..i] + [q[|q| - 1]] + q[i + 1..|q| - 1]
  {
  }

  lemma SwapRemovePrefix(q: seq<nat>, i: nat)
    requires i < |q|
    ensures i <= |SwapRemove(q, i)| && SwapRemove(q, i)[..i] == q[..i]
  {
  }

  /** `swap_remove` removes one entry from the bag, wherever it stood, and keeps those before it in place. */
  lemma SwapRemoveBag(q: seq<nat>, i: nat)
    requires i < |q|
    ensures multiset(SwapRemove(q, i)) == multiset(q) - multiset{q[i]}
    ensures i <= |SwapRemove(q, i)| && SwapRemove(q, i)[..i] == q[..i]
  {
    SwapRemovePrefix(q, i);
    var n := |q| - 1;
    if i == n {
      assert q == q[..n] + [q[n]];
      assert SwapRemove(q, i) == q[..n];
    } else {
      var a, b := q[..i], q[i + 1..n];
      SwapRemoveParts(q, i);
      calc {
        multiset(SwapRemove(q, i));
        multiset(a + [q[n]] + b);
        { BagOfParts(a, q[i], b, q[n]); }
        multiset(a + [q[i]] + b + [q[n]]) - multiset{q[i]};
        multiset(q) - multiset{q[i]};
      }
    }
  }

  /**
   The vector while results are handled: its first `low` entries are the original ones, and
   as a bag it is `rest` plus what has been issued.
   */
  ghost predicate Handling(v: Server, was: seq<nat>, low: nat, rest: multiset<nat>, issued: seq<nat>) {
    && !v.crashed
    && low <= |was|
    && low <= |v.qts|
    && v.qts[..low] == was[..low]
    && multiset(v.qts) == rest + multiset(issued)
  }

  /** The `i`-th token names the task numbered `base + i`. */
  ghost predicate NamesInOrder(m: map<nat, Task>, base: nat, issued: seq<nat>) {
    forall i :: 0 <= i < |issued| ==> issued[i] in m && m[issued[i]].id == base + i
  }

  /** The tokens name, in order, the tasks created since `base` tasks were, and there are no others. */
  ghost predicate NamesCreated(s: Sched, base: nat, issued: seq<nat>) {
    s.spawned == base + |issued| && NamesInOrder(Tasks(s), base, issued)
  }

  /** The kept keys and the issued ones are operations, and nothing occurs twice. */
  ghost predicate Apart(m: map<nat, Task>, kept: set<nat>, issued: seq<nat>) {
    && DistinctTokens(issued)
    && (forall k :: k in kept ==> k in m && m[k].kind.Operation?)
    && (forall i :: 0 <= i < |issued| ==> issued[i] !in kept && issued[i] in m && m[issued[i]].kind.Operation?)
  }

  /** Keys that are live operations and, where new, differ from everything that is kept. */
  ghost predicate Fresh(v: Server, kept: set<nat>, base: nat, issued: seq<nat>) {
    Inv(v.s) && Apart(Tasks(v.s), kept, issued) && NamesCreated(v.s, base, issued)
  }

  lemma ApartMore(m: map<nat, Task>, kept: set<nat>, issued: seq<nat>, key: nat, t: Task)
    requires Apart(m, kept, issued) && key !in m && t.kind.Operation?
    ensures Apart(m[key := t], kept, issued + [key])
  {
  }

  lemma NamesMore(m: map<nat, Task>, base: nat, issued: seq<nat>, key: nat, t: Task)
    requires NamesInOrder(m, base, issued) && key !in m && t.id == base + |issued|
    ensures NamesInOrder(m[key := t], base, issued + [key])
  {
  }

  /** Issuing one token. */
  lemma IssueOne(v: Server, kept: set<nat>, base: nat, issued: seq<nat>, key: nat, s': Sched)
    requires Fresh(v, kept, base, issued)
    requires SchedulerModel.Insert(v.s, Operation) == SchedulerModel.Issued(s', Some(key))
    ensures Fresh(Server(s', v.qts + [key], false), kept, base, issued + [key])
  {
    InsertBears(v.s, Operation);
    InsertKeeps(v.s, Operation);
    hide Inv, SchedulerModel.Insert, Apart, NamesInOrder, Good, Grows;
    var t := Task(v.s.spawned, Operation, false);
    ApartMore(Tasks(v.s), kept, issued, key, t);
    NamesMore(Tasks(v.s), base, issued, key, t);
  }

  lemma HandlingPush(v: Server, v': Server, was: seq<nat>, low: nat, rest: multiset<nat>, issued: seq<nat>, key: nat)
    requires Handling(v, was, low, rest, issued)
    requires v'.qts == v.qts + [key] && !v'.crashed
    ensures Handling(v', was, low, rest, issued + [key])
  {
    assert multiset(v.qts + [key]) == multiset(v.qts) + multiset{key};
    assert multiset(issued + [key]) == multiset(issued) + multiset{key};
    assert (v.qts + [key])[..low] == v.qts[..low];
  }

  /** Where the handling of one turn started, and what it must not touch. */
  datatype Stage = Stage(was: seq<nat>, kept: set<nat>, base: nat)

  /** The server crashed with every key taken, or it holds `count` fresh tokens beside `rest`. */
  ghost predicate Holding(v: Server, g: Stage, low: nat, rest: multiset<nat>, count: nat, issued: seq<nat>) {
    if v.crashed then |Tasks(v.s)| == KEY_LIMIT
    else Handling(v, g.was, low, rest, issued) && Fresh(v, g.kept, g.base, issued) && |issued| == count
  }

  lemma IssueOnceKeeps(v: Server, g: Stage, low: nat, rest: multiset<nat>, issued: seq<nat>)
    returns (issued': seq<nat>)
    requires Handling(v, g.was, low, rest, issued) && Fresh(v, g.kept, g.base, issued)
    ensures Holding(IssueOnce(v), g, low, rest, |issued| + 1, issued')
  {
    issued' := issued;
    InsertBears(v.s, Operation);
    var i := SchedulerModel.Insert(v.s, Operation);
    if i.key.Some? {
      var key := i.key.value;
      issued' := issued + [key];
      IssueOne(v, g.kept, g.base, issued, key, i.s);
      HandlingPush(v, IssueOnce(v), g.was, low, rest, issued, key);
    }
  }

  /** Issuing crashes only with every key taken; otherwise it appends fresh tokens. */
  lemma {:induction false} IssueKeeps(v: Server, n: nat, g: Stage, low: nat, rest: multiset<nat>, count: nat,
                                      issued: seq<nat>)
    returns (issued': seq<nat>)
    requires Holding(v, g, low, rest, count, issued)
    ensures Holding(Issue(v, n), g, low, rest, count + n, issued')
    decreases n
  {
    hide Handling, Fresh, IssueOnce, SchedulerModel.Insert;
    issued' := issued;
    if n > 0 && !v.crashed {
      var issued1 := IssueOnceKeeps(v, g, low, rest, issued);
      issued' := IssueKeeps(IssueOnce(v), n - 1, g, low, rest, count + 1, issued1);
    }
  }

  // -------------------------------------------------------------------------------------
  // Bags of tokens
  // -------------------------------------------------------------------------------------

  lemma {:induction false} DistinctIsBagOfOnes(q: seq<nat>, x: nat)
    requires DistinctTokens(q)
    ensures multiset(q)[x] == if x in q then 1 else 0
  {
    if q != [] {
      var init, last := q[..|q| - 1], q[|q| - 1];
      assert q == init + [last];
      DistinctIsBagOfOnes(init, x);
    }
  }

  lemma BagOfOnesIsDistinct(q: seq<nat>)
    requires forall x :: x in q ==> multiset(q)[x] <= 1
    ensures DistinctTokens(q)
  {
    forall i, j | 0 <= i < j < |q|
      ensures q[i] != q[j]
    {
      assert q == q[..j] + q[j..];
      assert q[i] in q[..j] && q[j] in q[j..];
      assert multiset(q)[q[j]] == multiset(q[..j])[q[j]] + multiset(q[j..])[q[j]];
    }
  }

  /** The tokens at the indices `taken[j..]`, as a bag. */
  ghost function Removed(was: seq<nat>, taken: seq<nat>, j: nat): (r: multiset<nat>)
    requires forall a :: 0 <= a < |taken| ==> taken[a] < |was|
    decreases |taken| - j
  {
    if j >= |taken| then multiset{} else multiset{was[taken[j]]} + Removed(was, taken, j + 1)
  }

  /** In a vector without duplicates a token is in that bag once if its index is taken. */
  lemma {:induction false} RemovedCount(was: seq<nat>, taken: seq<nat>, j: nat, i: nat)
    requires DistinctTokens(was) && Increasing(taken) && i < |was|
    requires forall a :: 0 <= a < |taken| ==> taken[a] < |was|
    ensures Removed(was, taken, j)[was[i]] == if j < |taken| && i in taken[j..] then 1 else 0
    decreases |taken| - j
  {
    if j < |taken| {
      RemovedCount(was, taken, j + 1, i);
      assert taken[j..] == [taken[j]] + taken[j + 1..];
      if j + 1 < |taken| && i in taken[j + 1..] {
        var a :| j + 1 <= a < |taken| && taken[a] == i;
        assert taken[j] != i;
      }
    }
  }

  // -------------------------------------------------------------------------------------
  // One server iteration
  // -------------------------------------------------------------------------------------

  ghost function Low(was: seq<nat>, taken: seq<nat>, j: nat): (n: nat)
    requires j <= |taken|
  {
    if j == |taken| then |was| else taken[j]
  }

  /** The indices the scan took are fit for reverse-order removal. */
  ghost predicate Removable(was: seq<nat>, taken: seq<nat>) {
    && DistinctTokens(was)
    && Increasing(taken)
    && forall a :: 0 <= a < |taken| ==> taken[a] < |was|
  }

  /** Swapping out the next token: the entry at its index is still the original one. */
  lemma SwapOut(v: Server, was: seq<nat>, taken: seq<nat>, j: nat, issued: seq<nat>)
    requires Removable(was, taken) && 0 < j <= |taken|
    requires Handling(v, was, Low(was, taken, j), Rest(was, taken, j), issued)
    ensures taken[j - 1] < |v.qts|
    ensures Handling(v.(qts := SwapRemove(v.qts, taken[j - 1])), was, taken[j - 1], Rest(was, taken, j - 1), issued)
  {
    var i, low := taken[j - 1], Low(was, taken, j);
    var x := was[i];
    assert i < low;
    assert v.qts[i] == v.qts[..low][i] == was[..low][i];
    SwapRemoveBag(v.qts, i);
    assert v.qts[..i] == v.qts[..low][..i] == was[..i];
    RemovedCount(was, taken, j, i);
    DistinctIsBagOfOnes(was, x);
    assert Removed(was, taken, j - 1) == multiset{x} + Removed(was, taken, j);
    TakeFromRest(multiset(was), Removed(was, taken, j), multiset(issued), x);
  }

  lemma TakeFromRest(all: multiset<nat>, gone: multiset<nat>, issued: multiset<nat>, x: nat)
    requires x in all && gone[x] == 0
    ensures (all - gone + issued) - multiset{x} == (all - (multiset{x} + gone)) + issued
  {
  }

  /** The tokens the first `j` answers call for. */
  function TotalIssued(answers: seq<Answer>, j: nat): (n: nat)
    requires j <= |answers|
  {
    if j == 0 then 0 else TokensIssued(answers[j - 1]) + TotalIssued(answers, j - 1)
  }

  /** What is left of the original tokens once the results from `j` on are handled. */
  ghost function Rest(was: seq<nat>, taken: seq<nat>, j: nat): (r: multiset<nat>)
    requires forall a :: 0 <= a < |taken| ==> taken[a] < |was|
  {
    multiset(was) - Removed(was, taken, j)
  }

  /** Handling one result. */
  lemma HandleOneKeeps(v: Server, g: Stage, taken: seq<nat>, a: Answer, j: nat, issued: seq<nat>)
    returns (issued': seq<nat>)
    requires Removable(g.was, taken) && 0 < j <= |taken| && !a.Unexpected? && !v.crashed
    requires Holding(v, g, Low(g.was, taken, j), Rest(g.was, taken, j), |issued|, issued)
    ensures Holding(HandleOne(v, taken[j - 1], a), g, Low(g.was, taken, j - 1), Rest(g.was, taken, j - 1),
                    |issued| + TokensIssued(a), issued')
  {
    SwapOut(v, g.was, taken, j, issued);
    var v1 := v.(qts := SwapRemove(v.qts, taken[j - 1]));
    hide Handling, Inv, Issue, Removed, Apart, NamesCreated;
    issued' := IssueKeeps(v1, TokensIssued(a), g, taken[j - 1], Rest(g.was, taken, j - 1), |issued|, issued);
  }

  /** Handling every result in reverse order. */
  lemma {:induction false} HandleAllKeeps(v: Server, g: Stage, taken: seq<nat>, answers: seq<Answer>, j: nat,
                                          count: nat, issued: seq<nat>)
    returns (issued': seq<nat>)
    requires Removable(g.was, taken) && j <= |taken| == |answers|
    requires forall a :: 0 <= a < |answers| ==> !answers[a].Unexpected?
    requires Holding(v, g, Low(g.was, taken, j), Rest(g.was, taken, j), count, issued)
    ensures Holding(HandleAll(v, taken, answers, j), g, Low(g.was, taken, 0), Rest(g.was, taken, 0),
                    count + TotalIssued(answers, j), issued')
    decreases j
  {
    hide Handling, Fresh, HandleOne, Removable, Rest, Low;
    issued' := issued;
    if j > 0 && !v.crashed {
      var issued1 := HandleOneKeeps(v, g, taken, answers[j - 1], j, issued);
      issued' := HandleAllKeeps(HandleOne(v, taken[j - 1], answers[j - 1]), g, taken, answers, j - 1,
                                count + TokensIssued(answers[j - 1]), issued1);
    }
  }

  // -------------------------------------------------------------------------------------
  // Every run of the server
  // -------------------------------------------------------------------------------------

  /** What the world does during one round, and what each result taken in it turns out to be. */
  datatype Input = Input(before: seq<Effect>, after: seq<Effect>, reply: nat -> Answer)

  function Replies(input: Input, n: nat): (r: seq<Answer>)
    ensures |r| == n && forall a :: 0 <= a < n ==> r[a] == input.reply(a)
  {
    seq(n, (a: nat) => input.reply(a))
  }

  /** The server makes room for this many results. */
  const RESULTS: nat := 2000

  /** One turn of the server: a round, a scan and, if anything completed, its handling. */
  function Turn(v: Server, env: Oracle, input: Input): (r: Server)
    ensures r.s.legal ==> v.s.legal
  {
    var s := Round(v.s, env, input.before, input.after);
    match ScanFrom(s, v.qts, RESULTS, 0, [])
    case Scanned(s', taken) =>
      HandleAll(Server(s', v.qts, v.crashed), taken, Replies(input, |taken|), |taken|)
    case BadToken(s', _) => Server(s', v.qts, true)
    case Aborted(s') => Server(s', v.qts, true)
  }

  ghost predicate Sound(v: Server) {
    !v.crashed && Inv(v.s) && Tokens(v.s, v.qts)
  }

  /** The tokens a scan did not take. */
  ghost function Kept(qts: seq<nat>, taken: seq<nat>): (r: set<nat>) {
    set i | 0 <= i < |qts| && i !in taken :: qts[i]
  }

  /** What the scan leaves behind is a good start for handling. */
  lemma ScanStartsHandling(s: Sched, s': Sched, qts: seq<nat>, taken: seq<nat>)
    requires Inv(s') && Tokens(s, qts) && Removable(qts, taken)
    requires Tasks(s') == Tasks(s) - Picked(qts, taken)
    ensures Holding(Server(s', qts, false), Stage(qts, Kept(qts, taken), s'.spawned), Low(qts, taken, |taken|),
                    Rest(qts, taken, |taken|), 0, [])
  {
    assert qts[..|qts|] == qts;
    forall k | k in Kept(qts, taken)
      ensures k in Tasks(s') && Tasks(s')[k].kind.Operation?
    {
      var i :| 0 <= i < |qts| && i !in taken && qts[i] == k;
      NotPicked(qts, taken, i);
    }
  }

  /** A token left over by the removal is one that was kept, once. */
  lemma RestIsKept(qts: seq<nat>, taken: seq<nat>, x: nat)
    requires Removable(qts, taken)
    ensures Rest(qts, taken, 0)[x] <= 1
    ensures x in Rest(qts, taken, 0) ==> x in Kept(qts, taken)
  {
    DistinctIsBagOfOnes(qts, x);
    if x in qts {
      var i :| 0 <= i < |qts| && qts[i] == x;
      RemovedCount(qts, taken, 0, i);
      if taken != [] {
        assert taken[0..] == taken;
      }
    }
  }

  lemma HandledIsSound(v: Server, qts: seq<nat>, taken: seq<nat>, low: nat, base: nat, issued: seq<nat>)
    requires Removable(qts, taken)
    requires Handling(v, qts, low, Rest(qts, taken, 0), issued)
    requires Fresh(v, Kept(qts, taken), base, issued)
    ensures Sound(v)
  {
    forall x | x in v.qts
      ensures multiset(v.qts)[x] <= 1
      ensures x in Tasks(v.s) && Tasks(v.s)[x].kind.Operation?
    {
      assert x in multiset(v.qts);
      RestIsKept(qts, taken, x);
      DistinctIsBagOfOnes(issued, x);
    }
    BagOfOnesIsDistinct(v.qts);
  }

  /**
   From the scheduler `s` and the tokens `qts`, with the results at the indices `taken` handled:
   a sound server, whose tokens are the old ones without those taken and with the issued ones,
   which name exactly the tasks created meanwhile, in order.
   */
  ghost predicate Exchanged(s: Sched, qts: seq<nat>, taken: seq<nat>, issued: seq<nat>, v': Server)
    requires Removable(qts, taken)
  {
    && Sound(v')
    && multiset(v'.qts) == Rest(qts, taken, 0) + multiset(issued)
    && NamesCreated(v'.s, s.spawned, issued)
  }

  /** Handling what a scan took. */
  lemma HandlingKeeps(s: Sched, s': Sched, qts: seq<nat>, taken: seq<nat>, answers: seq<Answer>)
    returns (issued: seq<nat>)
    requires Inv(s') && Tokens(s, qts) && Removable(qts, taken) && |answers| == |taken|
    requires Tasks(s') == Tasks(s) - Picked(qts, taken)
    requires forall a :: 0 <= a < |answers| ==> !answers[a].Unexpected?
    ensures var v' := HandleAll(Server(s', qts, false), taken, answers, |taken|);
      if v'.crashed then |Tasks(v'.s)| == KEY_LIMIT
      else Exchanged(s', qts, taken, issued, v') && |issued| == TotalIssued(answers, |answers|)
  {
    hide Inv, Apart, HandleAll, Sound, Rest, Kept, NamesInOrder, Tokens, Removable, Low;
    ScanStartsHandling(s, s', qts, taken);
    var v0, g := Server(s', qts, false), Stage(qts, Kept(qts, taken), s'.spawned);
    issued := HandleAllKeeps(v0, g, taken, answers, |taken|, 0, []);
    var v' := HandleAll(v0, taken, answers, |taken|);
    if !v'.crashed {
      HandledIsSound(v', qts, taken, Low(qts, taken, 0), s'.spawned, issued);
    }
  }

  /**
   One turn from a sound state, with results the server expects: the indices are those of
   the first completed tokens; the vector loses exactly those tokens and gains exactly one token
   for each operation the turn scheduled, although freed keys come back while stale equal tokens
   are still in it; and the new vector is again pairwise distinct, each token naming a live
   operation. The only way out is the exhaustion of all 2^63 keys.
   */
  lemma TurnKeeps(v: Server, env: Oracle, input: Input) returns (taken: seq<nat>, issued: seq<nat>)
    requires Sound(v) && Turn(v, env, input).s.legal
    requires forall a :: !input.reply(a).Unexpected?
    ensures FirstCompleted(Round(v.s, env, input.before, input.after), v.qts, 2000, taken)
    ensures Removable(v.qts, taken)
    ensures TurnAnswers(v, env, input) == Replies(input, |taken|)
    ensures var s, v' := Round(v.s, env, input.before, input.after), Turn(v, env, input);
      if v'.crashed then |Tasks(v'.s)| == KEY_LIMIT
      else
        && Exchanged(s, v.qts, taken, issued, v')
        && |issued| == TotalIssued(Replies(input, |taken|), |taken|)
  {
    var s := Round(v.s, env, input.before, input.after);
    RoundKeepsTokens(v.s, env, input.before, input.after, v.qts);
    ScanTakesFirstCompleted(s, v.qts, RESULTS);
    var r := ScanFrom(s, v.qts, RESULTS, 0, []);
    taken := r.taken;
    issued := HandlingKeeps(s, r.s, v.qts, taken, Replies(input, |taken|));
  }

  /** The server starts with one accept in flight. */
  function Start(): (v: Server) {
    Issue(Server(INITIAL, [], false), 1)
  }

  function Serve(env: Oracle, inputs: seq<Input>): (v: Server)
    decreases |inputs|
  {
    if inputs == [] then Start()
    else
      var v := Serve(env, inputs[..|inputs| - 1]);
      if v.crashed then v else Turn(v, env, inputs[|inputs| - 1])
  }

  lemma StartSound()
    ensures Start().crashed || Sound(Start())
    ensures Start().crashed ==> |Tasks(Start().s)| == KEY_LIMIT
  {
    EmptyIsGood<Task>();
    var v := Server(INITIAL, [], false);
    assert Inv(INITIAL);
    var issued := IssueKeeps(v, 1, Stage([], {}, 0), 0, multiset{}, 0, []);
    if !Start().crashed {
      StartTokens(Start(), issued);
    }
  }

  lemma StartTokens(v: Server, issued: seq<nat>)
    requires Handling(v, [], 0, multiset{}, issued) && Fresh(v, {}, 0, issued)
    ensures Sound(v)
  {
    forall x | x in v.qts
      ensures multiset(v.qts)[x] <= 1 && x in Tasks(v.s) && Tasks(v.s)[x].kind.Operation?
    {
      assert x in multiset(v.qts);
      DistinctIsBagOfOnes(issued, x);
      var i :| 0 <= i < |issued| && issued[i] == x;
    }
    BagOfOnesIsDistinct(v.qts);
  }

  /** Every run of the server keeps its tokens distinct and live, and ends only out of keys. */
  lemma {:induction false} EveryServerRun(env: Oracle, inputs: seq<Input>)
    requires Serve(env, inputs).s.legal
    requires forall i :: 0 <= i < |inputs| ==> forall a :: !inputs[i].reply(a).Unexpected?
    ensures var v := Serve(env, inputs);
      if v.crashed then |Tasks(v.s)| == KEY_LIMIT else Sound(v)
    decreases |inputs|
  {
    if inputs == [] {
      StartSound();
    } else {
      var v := Serve(env, inputs[..|inputs| - 1]);
      EveryServerRun(env, inputs[..|inputs| - 1]);
      if !v.crashed {
        var taken, issued := TurnKeeps(v, env, inputs[|inputs| - 1]);
      }
    }
  }

  // -------------------------------------------------------------------------------------
  // What the tokens are for
  // -------------------------------------------------------------------------------------

  /** The operation an answer is the answer to. A connection that migrated away is reported to its pop. */
  function Finishes(a: Answer): (o: Operations) {
    match a
    case Accepted => Operations(1, 0, 0)
    case Pushed => Operations(0, 1, 0)
    case Popped(_, _) => Operations(0, 0, 1)
    case Migrated => Operations(0, 0, 1)
    case Unexpected => Operations(0, 0, 0)
  }

  /** Connections opened, less those handed over or migrated away. */
  function Opens(a: Answer): (n: int) {
    match a
    case Accepted => 1
    case Popped(_, rearm) => if rearm then 0 else -1
    case Migrated => -1
    case _ => 0
  }

  /** Operations in flight, and open connections. */
  datatype Ledger = Ledger(inFlight: Operations, open: int)

  function Settle(l: Ledger, answers: seq<Answer>, j: nat): (r: Ledger)
    requires j <= |answers|
    decreases j
  {
    if j == 0 then l
    else
      var a, o := answers[j - 1], l.inFlight;
      var o' := Operations(o.accepts - Finishes(a).accepts + Follows(a).accepts,
                           o.pushes - Finishes(a).pushes + Follows(a).pushes,
                           o.pops - Finishes(a).pops + Follows(a).pops);
      Settle(Ledger(o', l.open + Opens(a)), answers, j - 1)
  }

  /** The answers handled in a turn. */
  function TurnAnswers(v: Server, env: Oracle, input: Input): (r: seq<Answer>) {
    match ScanFrom(Round(v.s, env, input.before, input.after), v.qts, RESULTS, 0, [])
    case Scanned(_, taken) => Replies(input, |taken|)
    case _ => []
  }

  function LedgerOf(env: Oracle, inputs: seq<Input>): (l: Ledger)
    decreases |inputs|
  {
    if inputs == [] then Ledger(Operations(1, 0, 0), 0)
    else
      var init, input := inputs[..|inputs| - 1], inputs[|inputs| - 1];
      var answers := TurnAnswers(Serve(env, init), env, input);
      Settle(LedgerOf(env, init), answers, |answers|)
  }

  function InFlight(l: Ledger): (n: int) {
    l.inFlight.accepts + l.inFlight.pushes + l.inFlight.pops
  }

  lemma {:induction false} SettleBalances(l: Ledger, answers: seq<Answer>, j: nat)
    requires j <= |answers| && forall a :: 0 <= a < |answers| ==> !answers[a].Unexpected?
    ensures var r := Settle(l, answers, j);
      && r.inFlight.accepts == l.inFlight.accepts
      && r.inFlight.pops - r.open == l.inFlight.pops - l.open
      && InFlight(r) == InFlight(l) - j + TotalIssued(answers, j)
    decreases j
  {
    if j > 0 {
      var a, o := answers[j - 1], l.inFlight;
      var o' := Operations(o.accepts - Finishes(a).accepts + Follows(a).accepts,
                           o.pushes - Finishes(a).pushes + Follows(a).pushes,
                           o.pops - Finishes(a).pops + Follows(a).pops);
      SettleBalances(Ledger(o', l.open + Opens(a)), answers, j - 1);
    }
  }

  lemma {:induction false} RemovedSize(was: seq<nat>, taken: seq<nat>, j: nat)
    requires j <= |taken| && forall a :: 0 <= a < |taken| ==> taken[a] < |was|
    ensures |Removed(was, taken, j)| == |taken| - j
    decreases |taken| - j
  {
    if j < |taken| {
      RemovedSize(was, taken, j + 1);
    }
  }

  lemma {:induction false} RemovedIsThere(was: seq<nat>, taken: seq<nat>, j: nat, x: nat)
    requires forall a :: 0 <= a < |taken| ==> taken[a] < |was|
    ensures x in Removed(was, taken, j) ==> x in was
    decreases |taken| - j
  {
    if j < |taken| {
      RemovedIsThere(was, taken, j + 1, x);
    }
  }

  lemma RestSize(was: seq<nat>, taken: seq<nat>)
    requires Removable(was, taken)
    ensures |Rest(was, taken, 0)| == |was| - |taken|
  {
    RemovedSize(was, taken, 0);
    var gone := Removed(was, taken, 0);
    forall x
      ensures gone[x] <= multiset(was)[x]
    {
      RemovedIsThere(was, taken, 0, x);
      if x in was {
        var i :| 0 <= i < |was| && was[i] == x;
        RemovedCount(was, taken, 0, i);
      }
    }
    assert gone <= multiset(was);
    assert multiset(was) == Rest(was, taken, 0) + gone;
  }

  lemma ExchangedSize(s: Sched, was: seq<nat>, taken: seq<nat>, issued: seq<nat>, v: Server)
    requires Removable(was, taken) && Exchanged(s, was, taken, issued, v)
    ensures |v.qts| == |was| - |taken| + |issued|
  {
    hide Inv, Tasks, Removed, Sound;
    RestSize(was, taken);
    assert |multiset(v.qts)| == |Rest(was, taken, 0)| + |multiset(issued)|;
  }

  /** One turn: the vector holds as many tokens more or fewer as the ledger says. */
  lemma TurnBalances(v: Server, env: Oracle, input: Input, l: Ledger)
    requires Sound(v) && Turn(v, env, input).s.legal && !Turn(v, env, input).crashed
    requires forall a :: !input.reply(a).Unexpected?
    requires InFlight(l) == |v.qts|
    ensures var answers := TurnAnswers(v, env, input);
      && InFlight(Settle(l, answers, |answers|)) == |Turn(v, env, input).qts|
      && forall a :: 0 <= a < |answers| ==> !answers[a].Unexpected?
  {
    hide Sound, Turn, TurnAnswers, Exchanged, FirstCompleted, Removable, Round, Settle, TotalIssued;
    var taken, issued := TurnKeeps(v, env, input);
    var s, answers := Round(v.s, env, input.before, input.after), TurnAnswers(v, env, input);
    ExchangedSize(s, v.qts, taken, issued, Turn(v, env, input));
    SettleBalances(l, answers, |answers|);
  }

  /**
   After every run of the server there is one accept in flight, one pop for each open connection,
   and one token in the vector for each operation in flight.
   */
  lemma {:induction false} EveryTokenHasAPurpose(env: Oracle, inputs: seq<Input>)
    requires Serve(env, inputs).s.legal && !Serve(env, inputs).crashed
    requires forall i :: 0 <= i < |inputs| ==> forall a :: !inputs[i].reply(a).Unexpected?
    ensures var l := LedgerOf(env, inputs);
      && l.inFlight.accepts == 1
      && l.inFlight.pops == l.open
      && InFlight(l) == |Serve(env, inputs).qts|
    decreases |inputs|
  {
    if inputs != [] {
      var init, input := inputs[..|inputs| - 1], inputs[|inputs| - 1];
      var v, l := Serve(env, init), LedgerOf(env, init);
      EveryTokenHasAPurpose(env, init);
      EveryServerRun(env, init);
      TurnBalances(v, env, input, l);
      var answers := TurnAnswers(v, env, input);
      SettleBalances(l, answers, |answers|);
    }
  }
}
