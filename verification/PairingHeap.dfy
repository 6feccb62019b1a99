/**
 The pairing heap behind the timers, in its first-child/next-sibling form. A chain is a list
 of siblings; a heap is a chain of one node, its root, or the empty chain.
 */
module PairingHeap {

  datatype Entry = Entry(id: nat, expiry: int)

  datatype Nodes = Nil | Node(entry: Entry, child: Nodes, next: Nodes)

  // -------------------------------------------------------------------------------------
  // What a chain holds, and the order it keeps
  // -------------------------------------------------------------------------------------

  function Entries(n: Nodes): (s: set<Entry>) {
    if n.Nil? then {} else {n.entry} + Entries(n.child) + Entries(n.next)
  }

  function Ids(n: Nodes): (s: set<nat>) {
    if n.Nil? then {} else {n.entry.id} + Ids(n.child) + Ids(n.next)
  }

  function Size(n: Nodes): (k: nat) {
    if n.Nil? then 0 else 1 + Size(n.child) + Size(n.next)
  }

  /** No node occurs twice. */
  predicate Distinct(n: Nodes) {
    n.Node? ==>
      && n.entry.id !in Ids(n.child) && n.entry.id !in Ids(n.next) && Ids(n.child) !! Ids(n.next)
      && Distinct(n.child) && Distinct(n.next)
  }

  /** Nothing in the chain expires before `bound`, and no node before its parent. */
  predicate Ordered(n: Nodes, bound: int) {
    n.Node? ==> bound <= n.entry.expiry && Ordered(n.child, n.entry.expiry) && Ordered(n.next, bound)
  }

  /** A node without siblings. */
  predicate Root(n: Nodes) {
    n.Node? && n.next.Nil?
  }

  /** A heap: empty, or a single root that expires first. */
  predicate Heap(n: Nodes) {
    n.Node? ==> n.next.Nil? && Distinct(n) && Ordered(n, n.entry.expiry)
  }

  // -------------------------------------------------------------------------------------
  // Operations
  // -------------------------------------------------------------------------------------

  function AddChild(parent: Nodes, child: Nodes): (n: Nodes)
    requires parent.Node? && child.Node?
  {
    parent.(child := child.(next := parent.child))
  }

  /** The lesser node becomes the root. */
  function Meld(left: Nodes, right: Nodes): (n: Nodes)
    requires left.Node? && right.Node?
    ensures Root(left) && Root(right) ==> Root(n)
  {
    if left.entry.expiry < right.entry.expiry then AddChild(left, right) else AddChild(right, left)
  }

  function MaybeMeld(left: Nodes, right: Nodes): (n: Nodes)
    requires right.Node?
    ensures (left.Nil? || Root(left)) && Root(right) ==> Root(n)
  {
    if left.Nil? then right else Meld(left, right)
  }

  /** Is the number of siblings odd? */
  predicate Odd(n: Nodes)
    ensures Odd(n) ==> n.Node?
  {
    n.Node? && !Odd(n.next)
  }

  function Alone(n: Nodes): (r: Nodes)
    requires n.Node?
    ensures Root(r)
  {
    n.(next := Nil)
  }

  /** Siblings are melded in pairs from the right, each pair into what is there already. */
  function MergeChildren(n: Nodes): (r: Nodes)
    ensures if n.Nil? then r.Nil? else Root(r)
  {
    if n.Nil? then Nil
    else if Odd(n) then MaybeMeld(MergeChildren(n.next), Alone(n))
    else MaybeMeld(MergeChildren(n.next.next), Meld(Alone(n), Alone(n.next)))
  }

  /** Is this one of the siblings, rather than below them? */
  predicate InChain(n: Nodes, id: nat) {
    n.Node? && (n.entry.id == id || InChain(n.next, id))
  }

  /** The siblings without one of them. */
  function Unlink(n: Nodes, id: nat): (r: Nodes) {
    if n.Nil? then Nil else if n.entry.id == id then n.next else n.(next := Unlink(n.next, id))
  }

  /** The children of one of the siblings. */
  function ChildrenOf(n: Nodes, id: nat): (r: Nodes) {
    if n.Nil? then Nil else if n.entry.id == id then n.child else ChildrenOf(n.next, id)
  }

  /** What a parent's children become when one of them leaves: its own children join, merged. */
  function Orphan(children: Nodes, id: nat): (r: Nodes) {
    var rest, orphans := Unlink(children, id), ChildrenOf(children, id);
    if orphans.Nil? then rest else MergeChildren(orphans).(next := rest)
  }

  /** Removal of a node that has a parent in or below this chain. */
  function RemoveBelow(n: Nodes, id: nat): (r: Nodes) {
    if n.Nil? then Nil
    else n.(child := if InChain(n.child, id) then Orphan(n.child, id) else RemoveBelow(n.child, id),
            next := RemoveBelow(n.next, id))
  }

  function Insert(heap: Nodes, e: Entry): (r: Nodes) {
    if heap.Nil? then Node(e, Nil, Nil) else Meld(heap, Node(e, Nil, Nil))
  }

  function Remove(heap: Nodes, id: nat): (r: Nodes) {
    if heap.Node? && heap.entry.id == id then MergeChildren(heap.child) else RemoveBelow(heap, id)
  }

  // -------------------------------------------------------------------------------------
  // Order and content
  // -------------------------------------------------------------------------------------

  lemma {:induction false} Loosen(n: Nodes, bound: int, lower: int)
    requires Ordered(n, bound) && lower <= bound
    ensures Ordered(n, lower)
  {
    if n.Node? {
      Loosen(n.next, bound, lower);
    }
  }

  lemma {:induction false} EntryBound(n: Nodes, bound: int, e: Entry)
    requires Ordered(n, bound) && e in Entries(n)
    ensures bound <= e.expiry
  {
    if e in Entries(n.child) {
      EntryBound(n.child, n.entry.expiry, e);
    } else if e in Entries(n.next) {
      EntryBound(n.next, bound, e);
    }
  }

  /** The root of a heap expires first. */
  lemma RootIsFirst(heap: Nodes, e: Entry)
    requires Heap(heap) && e in Entries(heap)
    ensures heap.entry.expiry <= e.expiry
  {
    EntryBound(heap, heap.entry.expiry, e);
  }

  lemma {:induction false} IdsOfEntries(n: Nodes)
    ensures Ids(n) == set e | e in Entries(n) :: e.id
  {
    if n.Node? {
      IdsOfEntries(n.child);
      IdsOfEntries(n.next);
    }
  }

  /** Where no node occurs twice, an id has one entry. */
  lemma {:induction false} OneEntryEach(n: Nodes, e: Entry, e': Entry)
    requires Distinct(n) && e in Entries(n) && e' in Entries(n) && e.id == e'.id
    ensures e == e'
  {
    IdsOfEntries(n.child);
    IdsOfEntries(n.next);
    assert e in Entries(n.child) <==> e.id in Ids(n.child) by {
      assert e == n.entry || e in Entries(n.child) || e in Entries(n.next);
    }
    assert e' in Entries(n.child) <==> e'.id in Ids(n.child) by {
      assert e' == n.entry || e' in Entries(n.child) || e' in Entries(n.next);
    }
    if e in Entries(n.child) {
      OneEntryEach(n.child, e, e');
    } else if e in Entries(n.next) && e' in Entries(n.next) {
      OneEntryEach(n.next, e, e');
    }
  }

  /** The same nodes, arranged differently. */
  ghost predicate Rearranged(n: Nodes, n': Nodes) {
    Entries(n') == Entries(n) && Ids(n') == Ids(n) && Size(n') == Size(n) && Distinct(n')
  }

  /** Two chains side by side. */
  ghost predicate Together(a: Nodes, b: Nodes, n: Nodes) {
    && Entries(n) == Entries(a) + Entries(b)
    && Ids(n) == Ids(a) + Ids(b)
    && Size(n) == Size(a) + Size(b)
    && Distinct(n)
  }

  lemma MeldKeeps(left: Nodes, right: Nodes, bound: int)
    requires Root(left) && Root(right) && Distinct(left) && Distinct(right) && Ids(left) !! Ids(right)
    requires Ordered(left, bound) && Ordered(right, bound)
    ensures Together(left, right, Meld(left, right)) && Ordered(Meld(left, right), bound)
  {
  }

  lemma MaybeMeldKeeps(left: Nodes, right: Nodes, bound: int)
    requires left.Nil? || Root(left)
    requires Root(right) && Distinct(left) && Distinct(right) && Ids(left) !! Ids(right)
    requires Ordered(left, bound) && Ordered(right, bound)
    ensures Together(left, right, MaybeMeld(left, right)) && Ordered(MaybeMeld(left, right), bound)
  {
    if left.Node? {
      MeldKeeps(left, right, bound);
    }
  }

  /** The first of several siblings, and the others. */
  lemma FirstSplits(n: Nodes, bound: int)
    requires n.Node? && Distinct(n) && Ordered(n, bound)
    ensures Together(Alone(n), n.next, n) && Ids(Alone(n)) !! Ids(n.next)
    ensures Distinct(Alone(n)) && Distinct(n.next)
    ensures Ordered(Alone(n), bound) && Ordered(n.next, bound)
  {
  }

  /** Merging siblings loses nothing and keeps the order. */
  lemma {:induction false} MergeKeeps(n: Nodes, bound: int)
    requires Distinct(n) && Ordered(n, bound)
    ensures Rearranged(n, MergeChildren(n)) && Ordered(MergeChildren(n), bound)
    decreases n
  {
    if n.Node? {
      hide Entries, Ids, Size, Distinct, Ordered;
      FirstSplits(n, bound);
      if Odd(n) {
        MergeKeeps(n.next, bound);
        MaybeMeldKeeps(MergeChildren(n.next), Alone(n), bound);
      } else {
        FirstSplits(n.next, bound);
        MeldKeeps(Alone(n), Alone(n.next), bound);
        MergeKeeps(n.next.next, bound);
        MaybeMeldKeeps(MergeChildren(n.next.next), Meld(Alone(n), Alone(n.next)), bound);
      }
    }
  }

  lemma MeldSize(left: Nodes, right: Nodes)
    requires (left.Nil? || Root(left)) && Root(right)
    ensures Size(MaybeMeld(left, right)) == Size(left) + Size(right)
  {
  }

  /** Merging keeps every node. */
  lemma {:induction false} MergeSize(n: Nodes)
    ensures Size(MergeChildren(n)) == Size(n)
    decreases n
  {
    if n.Node? {
      if Odd(n) {
        MergeSize(n.next);
        MeldSize(MergeChildren(n.next), Alone(n));
      } else {
        MergeSize(n.next.next);
        MeldSize(Alone(n), Alone(n.next));
        MeldSize(MergeChildren(n.next.next), Meld(Alone(n), Alone(n.next)));
      }
    }
  }

  // -------------------------------------------------------------------------------------
  // Insertion and removal
  // -------------------------------------------------------------------------------------

  lemma InsertKeeps(heap: Nodes, e: Entry)
    requires Heap(heap) && e.id !in Ids(heap)
    ensures Heap(Insert(heap, e))
    ensures Entries(Insert(heap, e)) == Entries(heap) + {e}
    ensures Ids(Insert(heap, e)) == Ids(heap) + {e.id}
  {
    var single := Node(e, Nil, Nil);
    assert Ids(single) == {e.id} && Entries(single) == {e};
    if heap.Node? {
      var bound := if heap.entry.expiry < e.expiry then heap.entry.expiry else e.expiry;
      Loosen(heap, heap.entry.expiry, bound);
      MeldKeeps(heap, single, bound);
    }
  }

  ghost function Others(s: set<Entry>, id: nat): (r: set<Entry>) {
    set e | e in s && e.id != id
  }

  lemma OthersAll(n: Nodes, id: nat)
    requires id !in Ids(n)
    ensures Others(Entries(n), id) == Entries(n)
  {
    IdsOfEntries(n);
  }

  lemma OthersOfNode(n: Nodes, id: nat)
    requires n.Node?
    ensures Others(Entries(n), id) ==
      (if n.entry.id == id then {} else {n.entry}) + Others(Entries(n.child), id) + Others(Entries(n.next), id)
  {
  }

  /** One node fewer. */
  ghost predicate Without(n: Nodes, n': Nodes, id: nat) {
    && Ids(n') == Ids(n) - {id}
    && Distinct(n')
    && Size(n') + (if id in Ids(n) then 1 else 0) == Size(n)
  }

  /** A chain splits into one sibling, its children, and the rest. */
  lemma {:induction false} UnlinkSplits(n: Nodes, id: nat)
    requires InChain(n, id) && Distinct(n)
    ensures Distinct(Unlink(n, id)) && Distinct(ChildrenOf(n, id))
    ensures Ids(Unlink(n, id)) !! Ids(ChildrenOf(n, id))
    ensures id in Ids(n) && Ids(n) - {id} == Ids(Unlink(n, id)) + Ids(ChildrenOf(n, id))
    ensures Size(n) == 1 + Size(Unlink(n, id)) + Size(ChildrenOf(n, id))
  {
    if n.entry.id != id {
      UnlinkSplits(n.next, id);
    }
  }

  lemma {:induction false} UnlinkEntries(n: Nodes, id: nat)
    requires InChain(n, id) && Distinct(n)
    ensures Others(Entries(n), id) == Entries(Unlink(n, id)) + Entries(ChildrenOf(n, id))
  {
    OthersOfNode(n, id);
    if n.entry.id == id {
      OthersAll(n.child, id);
      OthersAll(n.next, id);
    } else {
      UnlinkSplits(n.next, id);
      OthersAll(n.child, id);
      hide Others;
      UnlinkEntries(n.next, id);
    }
  }

  lemma {:induction false} UnlinkOrdered(n: Nodes, id: nat, bound: int)
    requires Ordered(n, bound)
    ensures Ordered(Unlink(n, id), bound) && Ordered(ChildrenOf(n, id), bound)
  {
    if n.Node? {
      if n.entry.id == id {
        Loosen(n.child, n.entry.expiry, bound);
      } else {
        UnlinkOrdered(n.next, id, bound);
      }
    }
  }

  /** A root joins a chain. */
  lemma JoinKeeps(root: Nodes, rest: Nodes, bound: int)
    requires Root(root) && Distinct(root) && Distinct(rest) && Ids(root) !! Ids(rest)
    requires Ordered(root, bound) && Ordered(rest, bound)
    ensures Together(root, rest, root.(next := rest)) && Ordered(root.(next := rest), bound)
  {
  }

  lemma OrphanKeeps(n: Nodes, id: nat, bound: int)
    requires InChain(n, id) && Distinct(n) && Ordered(n, bound)
    ensures id in Ids(n) && Without(n, Orphan(n, id), id)
    ensures Ordered(Orphan(n, id), bound)
    ensures Entries(Orphan(n, id)) == Others(Entries(n), id)
  {
    var rest, orphans := Unlink(n, id), ChildrenOf(n, id);
    UnlinkSplits(n, id);
    UnlinkEntries(n, id);
    UnlinkOrdered(n, id, bound);
    if orphans.Node? {
      MergeKeeps(orphans, bound);
      hide Entries, Ids, Size, Distinct, Ordered, Unlink, ChildrenOf, MergeChildren, InChain, Others;
      JoinKeeps(MergeChildren(orphans), rest, bound);
    }
  }

  lemma {:induction false} Unaffected(n: Nodes, id: nat)
    requires id !in Ids(n)
    ensures RemoveBelow(n, id) == n && !InChain(n, id)
  {
    if n.Node? {
      Unaffected(n.child, id);
      Unaffected(n.next, id);
    }
  }

  lemma {:induction false} RemoveBelowKeeps(n: Nodes, id: nat, bound: int)
    requires Distinct(n) && Ordered(n, bound) && !InChain(n, id)
    ensures Without(n, RemoveBelow(n, id), id)
    ensures Ordered(RemoveBelow(n, id), bound)
  {
    if n.Node? {
      if InChain(n.child, id) {
        OrphanKeeps(n.child, id, n.entry.expiry);
        Unaffected(n.next, id);
      } else {
        RemoveBelowKeeps(n.child, id, n.entry.expiry);
        RemoveBelowKeeps(n.next, id, bound);
      }
    }
  }

  lemma {:induction false} RemoveBelowEntries(n: Nodes, id: nat, bound: int)
    requires Distinct(n) && Ordered(n, bound) && !InChain(n, id)
    ensures Entries(RemoveBelow(n, id)) == Others(Entries(n), id)
  {
    if n.Node? {
      OthersOfNode(n, id);
      if InChain(n.child, id) {
        OrphanKeeps(n.child, id, n.entry.expiry);
        Unaffected(n.next, id);
        OthersAll(n.next, id);
      } else {
        hide Others;
        RemoveBelowEntries(n.child, id, n.entry.expiry);
        RemoveBelowEntries(n.next, id, bound);
      }
    }
  }

  /** Removing a member, wherever it is, removes it alone. */
  lemma RemoveKeeps(heap: Nodes, id: nat)
    requires Heap(heap) && id in Ids(heap)
    ensures Heap(Remove(heap, id))
    ensures Entries(Remove(heap, id)) == Others(Entries(heap), id)
    ensures Ids(Remove(heap, id)) == Ids(heap) - {id}
    ensures Size(Remove(heap, id)) + 1 == Size(heap)
  {
    if heap.entry.id == id {
      MergeKeeps(heap.child, heap.entry.expiry);
      OthersAll(heap.child, id);
    } else {
      RemoveBelowKeeps(heap, id, heap.entry.expiry);
      RemoveBelowEntries(heap, id, heap.entry.expiry);
    }
  }

  // -------------------------------------------------------------------------------------
  // The merging loop
  // -------------------------------------------------------------------------------------

  function Length(n: Nodes): (k: nat) {
    if n.Nil? then 0 else 1 + Length(n.next)
  }

  lemma {:induction false} OddLength(n: Nodes)
    ensures Odd(n) <==> Length(n) % 2 == 1
  {
    if n.Node? {
      OddLength(n.next);
    }
  }

  /** The siblings from the `i`-th on. */
  function From(n: Nodes, i: nat): (r: Nodes)
    requires i <= Length(n)
    ensures Length(r) == Length(n) - i
    decreases i
  {
    if i == 0 then n else From(n.next, i - 1)
  }

  lemma {:induction false} FromNext(n: Nodes, i: nat)
    requires i < Length(n)
    ensures From(n, i).Node? && From(n, i).next == From(n, i + 1)
    decreases i
  {
    if i > 0 {
      FromNext(n.next, i - 1);
    }
  }

  /** The loop that walks the siblings from the last to the first. */
  method MergeSiblings(first: Nodes) returns (root: Nodes)
    requires first.Node?
    ensures root == MergeChildren(first)
  {
    var i := Length(first);
    var current := Nil;
    while i > 1
      invariant 0 <= i <= Length(first) && (Length(first) - i) % 2 == 0
      invariant current == MergeChildren(From(first, i))
      decreases i
    {
      FromNext(first, i - 1);
      FromNext(first, i - 2);
      OddLength(From(first, i - 2));
      var node, prev := Alone(From(first, i - 1)), Alone(From(first, i - 2));
      current := MaybeMeld(current, Meld(prev, node));
      i := i - 2;
    }
    OddLength(first);
    if i == 1 {
      FromNext(first, 0);
      current := MaybeMeld(current, Alone(first));
    }
    root := current;
  }
}
