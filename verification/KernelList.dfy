/**
  The intrusive doubly linked list between two sentinels: pointers rewritten in place, tied to
  the sequence of elements between the sentinels. Several lists may share one heap.
*/
module KernelList {
  class Elem {
    var prev: Elem?
    var next: Elem?

    constructor () {
      prev, next := null, null;
    }
  }

  /** The sentinels and, between them, the elements: every next undone by the following prev. */
  ghost predicate Linked(nodes: seq<Elem>)
    reads nodes
  {
    && |nodes| >= 2
    && (forall i, j :: 0 <= i < j < |nodes| ==> nodes[i] != nodes[j])
    && nodes[0].prev == null && nodes[|nodes| - 1].next == null
    && (forall i {:trigger nodes[i].next} :: 0 <= i < |nodes| - 1 ==> nodes[i].next == nodes[i + 1])
    && (forall i {:trigger nodes[i].prev} :: 0 < i < |nodes| ==> nodes[i].prev == nodes[i - 1])
  }

  class List {
    const head: Elem
    const tail: Elem
    ghost var elems: seq<Elem>

    ghost function Nodes(): seq<Elem>
      reads this
    {
      [head] + elems + [tail]
    }

    ghost predicate Valid()
      reads this, Nodes()
    {
      Linked(Nodes())
    }

    /** list_init */
    constructor ()
      ensures Valid() && elems == [] && fresh(head) && fresh(tail)
    {
      head := new Elem();
      tail := new Elem();
      elems := [];
      new;
      head.prev := null;
      head.next := tail;
      tail.prev := head;
      tail.next := null;
    }

    /** list_insert_before, for an element in no list; k is where `before` stands. */
    method InsertBefore(before: Elem, elem: Elem, ghost k: nat)
      requires Valid() && k <= |elems| && before == Nodes()[k + 1] && elem !in Nodes()
      modifies this, Nodes()[k], before, elem
      ensures Valid() && elems == old(elems)[..k] + [elem] + old(elems)[k..]
    {
      before.prev.next := elem;
      elem.prev := before.prev;
      elem.next := before;
      before.prev := elem;
      elems := elems[..k] + [elem] + elems[k..];
      assert Nodes() == old(Nodes())[..k + 1] + [elem] + old(Nodes())[k + 1..];
    }

    /** list_push: in front of the first element */
    method Push(elem: Elem)
      requires Valid() && elem !in Nodes()
      modifies this, Nodes()[0], Nodes()[1], elem
      ensures Valid() && elems == [elem] + old(elems)
    {
      InsertBefore(head.next, elem, 0);
    }

    /** list_append */
    method Append(elem: Elem)
      requires Valid() && elem !in Nodes()
      modifies this, Nodes()[|elems|], tail, elem
      ensures Valid() && elems == old(elems) + [elem]
    {
      InsertBefore(tail, elem, |elems|);
    }

    /** list_remove */
    method Remove(elem: Elem, ghost k: nat)
      requires Valid() && k < |elems| && elem == elems[k]
      modifies this, Nodes()[k], Nodes()[k + 2]
      ensures Valid() && elems == old(elems)[..k] + old(elems)[k + 1..]
      ensures elem !in Nodes()
    {
      assert Nodes()[k + 1] == elem;
      elem.prev.next := elem.next;
      elem.next.prev := elem.prev;
      elems := elems[..k] + elems[k + 1..];
      assert Nodes() == old(Nodes())[..k + 1] + old(Nodes())[k + 2..];
    }

    /** list_pop, on a list that has an element */
    method Pop() returns (elem: Elem)
      requires Valid() && elems != []
      modifies this, Nodes()[0], Nodes()[2]
      ensures Valid() && elem == old(elems)[0] && elems == old(elems)[1..]
      ensures elem !in Nodes()
    {
      elem := head.next;
      assert Nodes()[1] == elem;
      Remove(elem, 0);
    }

    /** list_empty */
    method IsEmpty() returns (r: bool)
      requires Valid()
      ensures r <==> elems == []
    {
      assert Nodes()[0].next == Nodes()[1];
      r := head.next == tail;
    }

    /** elem_find */
    method Find(obj: Elem) returns (found: bool)
      requires Valid()
      ensures found <==> obj in elems
    {
      var elem := head.next;
      ghost var i := 0;
      while elem != tail
        invariant 0 <= i <= |elems| && elem == Nodes()[i + 1]
        invariant obj !in elems[..i]
        decreases |elems| - i
      {
        assert elem == elems[i];
        if elem == obj { return true; }
        elem := elem.next;
        i := i + 1;
      }
      assert elems[..i] == elems;
      return false;
    }

    /** list_traversal: the first element the callback accepts */
    method Traverse(func: Elem -> bool) returns (r: Elem?)
      requires Valid()
      ensures r == null ==> forall e :: e in elems ==> !func(e)
      ensures r != null ==> exists i :: 0 <= i < |elems| && elems[i] == r && func(r) && forall j :: 0 <= j < i ==> !func(elems[j])
    {
      var elem := head.next;
      var empty := IsEmpty();
      if empty { return null; }
      ghost var i := 0;
      while elem != tail
        invariant 0 <= i <= |elems| && elem == Nodes()[i + 1]
        invariant forall j :: 0 <= j < i ==> !func(elems[j])
        decreases |elems| - i
      {
        assert elem == elems[i];
        if func(elem) { return elem; }
        elem := elem.next;
        i := i + 1;
      }
      return null;
    }
  }

  // ---------------------------------------------------------------- any number of lists

  ghost function AllNodes(lists: seq<List>): set<Elem>
    reads lists
  {
    set i, x | 0 <= i < |lists| && x in lists[i].Nodes() :: x
  }

  lemma InAll(lists: seq<List>, i: nat)
    requires i < |lists|
    ensures forall x :: x in lists[i].Nodes() ==> x in AllNodes(lists)
  {
  }

  /** The lists are well linked and share no element, sentinels included. */
  ghost predicate Separate(lists: seq<List>)
    reads lists, AllNodes(lists)
  {
    && (forall i, j :: 0 <= i < j < |lists| ==> lists[i] != lists[j] && Apart(lists[i], lists[j]))
    && (forall i :: 0 <= i < |lists| ==> (InAll(lists, i); Linked(lists[i].Nodes())))
  }

  ghost predicate Apart(a: List, b: List)
    reads a, b
  {
    forall x :: x in a.Nodes() ==> x !in b.Nodes()
  }

  ghost function View(lists: seq<List>): seq<seq<Elem>>
    reads lists
  {
    seq(|lists|, i requires 0 <= i < |lists| reads lists => lists[i].elems)
  }

  datatype Op =
    | DoInsert(l: nat, k: nat, elem: Elem)
    | DoPush(l: nat, elem: Elem)
    | DoAppend(l: nat, elem: Elem)
    | DoRemove(l: nat, k: nat)
    | DoPop(l: nat)

  /** A list is named that exists, what is removed is there, and what is inserted is in no list. */
  ghost predicate Fits(op: Op, lists: seq<List>)
    reads lists
  {
    match op
    case DoInsert(l, k, elem) => l < |lists| && k <= |lists[l].elems| && elem !in AllNodes(lists)
    case DoPush(l, elem) => l < |lists| && elem !in AllNodes(lists)
    case DoAppend(l, elem) => l < |lists| && elem !in AllNodes(lists)
    case DoRemove(l, k) => l < |lists| && k < |lists[l].elems|
    case DoPop(l) => l < |lists| && lists[l].elems != []
  }

  /** The operation on sequences; lists it does not name stay as they are. */
  function After(v: seq<seq<Elem>>, op: Op): seq<seq<Elem>>
    requires op.l < |v|
    requires op.DoInsert? ==> op.k <= |v[op.l]|
    requires op.DoRemove? ==> op.k < |v[op.l]|
    requires op.DoPop? ==> v[op.l] != []
  {
    match op
    case DoInsert(l, k, elem) => v[l := v[l][..k] + [elem] + v[l][k..]]
    case DoPush(l, elem) => v[l := [elem] + v[l]]
    case DoAppend(l, elem) => v[l := v[l] + [elem]]
    case DoRemove(l, k) => v[l := v[l][..k] + v[l][k + 1..]]
    case DoPop(l) => v[l := v[l][1..]]
  }

  ghost function Inserted(op: Op): set<Elem> {
    if op.DoInsert? || op.DoPush? || op.DoAppend? then {op.elem} else {}
  }

  /** The operation on the one list it names. */
  method ApplyAt(l: List, op: Op)
    requires Linked(l.Nodes()) && Inserted(op) !! (set x | x in l.Nodes())
    requires op.DoInsert? ==> op.k <= |l.elems|
    requires op.DoRemove? ==> op.k < |l.elems|
    requires op.DoPop? ==> l.elems != []
    modifies l, l.Nodes(), Inserted(op)
    ensures Linked(l.Nodes()) && l.elems == After([old(l.elems)], op.(l := 0))[0]
    ensures forall x :: x in l.Nodes() ==> x in old(l.Nodes()) || x in Inserted(op)
  {
    ghost var nodes := l.Nodes();
    match op
    case DoInsert(_, k, elem) =>
      var before := l.head.next;
      var i := 0;
      assert before == nodes[1];
      while i < k
        invariant 0 <= i <= k && before == nodes[i + 1]
      {
        assert before.next == nodes[i + 2];
        before := before.next;
        i := i + 1;
      }
      l.InsertBefore(before, elem, k);
    case DoPush(_, elem) =>
      assert nodes[0] in nodes && nodes[1] in nodes;
      l.Push(elem);
    case DoAppend(_, elem) =>
      assert nodes[|l.elems|] in nodes && l.tail == nodes[|l.elems| + 1];
      l.Append(elem);
    case DoRemove(_, k) =>
      var elem := l.head.next;
      var i := 0;
      assert elem == nodes[1];
      while i < k
        invariant 0 <= i <= k && elem == nodes[i + 1]
      {
        assert elem.next == nodes[i + 2];
        elem := elem.next;
        i := i + 1;
      }
      l.Remove(elem, k);
    case DoPop(_) =>
      assert nodes[0] in nodes && nodes[2] in nodes;
      var _ := l.Pop();
  }

  /** Separate, said of the sequences of nodes alone. */
  ghost predicate NoneShared(nodes: seq<seq<Elem>>) {
    forall i, j, x :: 0 <= i < |nodes| && 0 <= j < |nodes| && i != j && x in nodes[i] ==> x !in nodes[j]
  }

  ghost function NodesOf(lists: seq<List>): seq<seq<Elem>>
    reads lists
  {
    seq(|lists|, i requires 0 <= i < |lists| reads lists => lists[i].Nodes())
  }

  lemma SeparateNodes(lists: seq<List>)
    requires Separate(lists)
    ensures NoneShared(NodesOf(lists))
  {
    hide Linked;
    forall i, j | 0 <= i < |lists| && 0 <= j < |lists| && i != j
      ensures forall x :: x in lists[i].Nodes() ==> x !in lists[j].Nodes()
    {
      assert if i < j then Apart(lists[i], lists[j]) else Apart(lists[j], lists[i]);
    }
  }

  /** Only list l changed, and what it gained is in no other list. */
  lemma StillNoneShared(before: seq<seq<Elem>>, now: seq<seq<Elem>>, l: nat, added: set<Elem>)
    requires NoneShared(before) && l < |before| == |now|
    requires forall i :: 0 <= i < |before| && i != l ==> now[i] == before[i]
    requires forall x :: x in now[l] ==> x in before[l] || x in added
    requires forall i, x :: 0 <= i < |before| && x in before[i] ==> x !in added
    ensures NoneShared(now)
  {
  }

  lemma SeparateAgain(lists: seq<List>)
    requires NoneShared(NodesOf(lists))
    requires forall i, j :: 0 <= i < j < |lists| ==> lists[i] != lists[j]
    requires forall i :: 0 <= i < |lists| ==> Linked(lists[i].Nodes())
    ensures Separate(lists)
  {
    hide Linked;
    forall i, j | 0 <= i < j < |lists|
      ensures Apart(lists[i], lists[j])
    {
      assert NodesOf(lists)[i] == lists[i].Nodes() && NodesOf(lists)[j] == lists[j].Nodes();
    }
  }

  /** What the operations leave as pre-state facts: no sharing, and the new element is in no list. */
  ghost predicate Ready(lists: seq<List>, op: Op, before: seq<seq<Elem>>)
    reads lists
  {
    && before == NodesOf(lists) && NoneShared(before) && op.l < |lists|
    && (forall i, j :: 0 <= i < j < |lists| ==> lists[i] != lists[j])
    && (forall i, x :: 0 <= i < |before| && x in before[i] ==> x !in Inserted(op))
  }

  lemma GetReady(lists: seq<List>, op: Op)
    requires Separate(lists) && Fits(op, lists)
    ensures Ready(lists, op, NodesOf(lists))
    ensures forall x :: x in lists[op.l].Nodes() ==> x in AllNodes(lists)
    ensures Linked(lists[op.l].Nodes()) && Inserted(op) !! (set x | x in lists[op.l].Nodes())
  {
    SeparateNodes(lists);
    InAll(lists, op.l);
    hide Linked, NoneShared;
    forall i, x | 0 <= i < |lists| && x in NodesOf(lists)[i]
      ensures x !in Inserted(op)
    {
      InAll(lists, i);
    }
  }

  lemma Wrapped(lists: seq<List>, op: Op, was: seq<seq<Elem>>, before: seq<seq<Elem>>)
    requires NoneShared(before) && op.l < |lists| == |before| == |was|
    requires forall i, j :: 0 <= i < j < |lists| ==> lists[i] != lists[j]
    requires forall i, x :: 0 <= i < |before| && x in before[i] ==> x !in Inserted(op)
    requires forall i: nat :: i < |lists| && i != op.l ==> lists[i].Nodes() == before[i] && lists[i].elems == was[i]
    requires forall i: nat :: i < |lists| ==> Linked(lists[i].Nodes())
    requires op.DoInsert? ==> op.k <= |was[op.l]|
    requires op.DoRemove? ==> op.k < |was[op.l]|
    requires op.DoPop? ==> was[op.l] != []
    requires lists[op.l].elems == After([was[op.l]], op.(l := 0))[0]
    requires forall x :: x in lists[op.l].Nodes() ==> x in before[op.l] || x in Inserted(op)
    ensures Separate(lists) && View(lists) == After(was, op)
    ensures AllNodes(lists) <= (set i, x | 0 <= i < |before| && x in before[i] :: x) + Inserted(op)
  {
    hide Linked;
    assert View(lists) == After(was, op);
    StillNoneShared(before, NodesOf(lists), op.l, Inserted(op));
    SeparateAgain(lists);
  }

  /** The named list changes; no other list, and no node of another list, does. */
  method ApplyFramed(lists: seq<List>, op: Op, ghost before: seq<seq<Elem>>)
    requires Ready(lists, op, before)
    requires forall i: nat :: i < |lists| ==> Linked(lists[i].Nodes())
    requires op.DoInsert? ==> op.k <= |lists[op.l].elems|
    requires op.DoRemove? ==> op.k < |lists[op.l].elems|
    requires op.DoPop? ==> lists[op.l].elems != []
    modifies lists[op.l], lists[op.l].Nodes(), Inserted(op)
    ensures forall i: nat :: i < |lists| ==> Linked(lists[i].Nodes())
    ensures forall i: nat :: i < |lists| && i != op.l ==> lists[i].Nodes() == before[i] && lists[i].elems == old(lists[i].elems)
    ensures lists[op.l].elems == After([old(lists[op.l].elems)], op.(l := 0))[0]
    ensures forall x :: x in lists[op.l].Nodes() ==> x in before[op.l] || x in Inserted(op)
  {
    hide Linked, After, Inserted, NoneShared;
    ghost var l := op.l;
    assert forall i :: 0 <= i < |lists| ==> before[i] == lists[i].Nodes();
    ApplyAt(lists[op.l], op);
    forall i: nat | i < |lists| && i != l
      ensures lists[i].Nodes() == before[i] && Linked(lists[i].Nodes()) && lists[i].elems == old(lists[i].elems)
    {
      assert lists[i] != lists[l];
      OthersOut(before, i, l);
      assert forall x :: x in before[i] ==> x !in before[l] && x !in Inserted(op);
      assert lists[i].Nodes() == before[i];
      assert old(Linked(before[i]));
    }
  }

  /** Any operation on any one of several lists sharing the heap: the named list changes as the
      sequence operation says, the others not at all, and all stay well linked and separate. */
  method Apply(lists: seq<List>, op: Op)
    requires Separate(lists) && Fits(op, lists)
    modifies lists, AllNodes(lists), Inserted(op)
    ensures Separate(lists) && View(lists) == After(old(View(lists)), op)
    ensures AllNodes(lists) <= old(AllNodes(lists)) + Inserted(op)
  {
    ghost var was, before := View(lists), NodesOf(lists);
    GetReady(lists, op);
    hide Linked, Inserted, NoneShared, After;
    ApplyFramed(lists, op, before);
    Wrapped(lists, op, was, before);
    hide Separate;
  }

  lemma OthersOut(before: seq<seq<Elem>>, i: nat, j: nat)
    requires NoneShared(before) && i < |before| && j < |before| && i != j
    ensures forall x :: x in before[i] ==> x !in before[j]
  {
  }

  // ---------------------------------------------------------------- sequences of operations

  ghost function Sentinels(lists: seq<List>): set<Elem> {
    set i, x | 0 <= i < |lists| && x in [lists[i].head, lists[i].tail] :: x
  }

  /** Fits, said of the sequences alone. */
  ghost predicate FitsView(op: Op, v: seq<seq<Elem>>, sentinels: set<Elem>) {
    && op.l < |v|
    && (op.DoInsert? ==> op.k <= |v[op.l]|)
    && (op.DoRemove? ==> op.k < |v[op.l]|)
    && (op.DoPop? ==> v[op.l] != [])
    && forall x :: x in Inserted(op) ==> x !in sentinels && forall i :: 0 <= i < |v| ==> x !in v[i]
  }

  ghost predicate Legal(v: seq<seq<Elem>>, sentinels: set<Elem>, ops: seq<Op>)
    decreases |ops|
  {
    ops != [] ==> FitsView(ops[0], v, sentinels) && Legal(After(v, ops[0]), sentinels, ops[1..])
  }

  ghost function AfterAll(v: seq<seq<Elem>>, sentinels: set<Elem>, ops: seq<Op>): seq<seq<Elem>>
    requires Legal(v, sentinels, ops)
    decreases |ops|
  {
    if ops == [] then v else AfterAll(After(v, ops[0]), sentinels, ops[1..])
  }

  ghost function InsertedAll(ops: seq<Op>): set<Elem>
    decreases |ops|
  {
    if ops == [] then {} else Inserted(ops[0]) + InsertedAll(ops[1..])
  }

  lemma FitsViewFits(lists: seq<List>, op: Op)
    requires FitsView(op, View(lists), Sentinels(lists))
    ensures Fits(op, lists)
  {
    assert |View(lists)| == |lists|;
    forall x | x in Inserted(op)
      ensures x !in AllNodes(lists)
    {
      forall i | 0 <= i < |lists|
        ensures x !in lists[i].Nodes()
      {
        assert View(lists)[i] == lists[i].elems;
        assert lists[i].head in [lists[i].head, lists[i].tail] && lists[i].tail in [lists[i].head, lists[i].tail];
        assert lists[i].head in Sentinels(lists) && lists[i].tail in Sentinels(lists);
      }
    }
  }

  /** Main result: any sequence of insertions and removals over several lists on one heap is the
      matching sequence of operations on sequences, and leaves every list well linked. */
  method Run(lists: seq<List>, ops: seq<Op>)
    requires Separate(lists) && Legal(View(lists), Sentinels(lists), ops)
    modifies lists, AllNodes(lists), InsertedAll(ops)
    ensures Separate(lists) && View(lists) == AfterAll(old(View(lists)), Sentinels(lists), ops)
    decreases |ops|
  {
    if ops != [] {
      hide Separate, View, FitsView;
      FitsViewFits(lists, ops[0]);
      hide Fits, AllNodes, Inserted, After, Sentinels;
      Apply(lists, ops[0]);
      Run(lists, ops[1..]);
    }
  }
}
