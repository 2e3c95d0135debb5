/**
  The COOL class table: names and parents, the subtype test, and the least common ancestor.
*/
module CoolClasses {
  datatype Symbol =
    | Object | IO | Int | Bool | Str | Main
    | SelfType
    /** Names no program can spell: the parent of Object, and the type of a missing expression. */
    | NoClass | NoType
    | Named(id: string)

  /** m_classes: each class and its parent. */
  type Table = map<Symbol, Symbol>

  predicate Leaf(c: Symbol) {
    c == Int || c == Bool || c == Str
  }

  /** The n-th parent. */
  function Up(t: Table, c: Symbol, n: nat): Symbol
    decreases n
  {
    if n == 0 then c else if c !in t then NoClass else Up(t, t[c], n - 1)
  }

  ghost predicate Rooted(t: Table, c: Symbol) {
    exists n: nat :: Up(t, c, n) == Object
  }

  predicate ParentOk(t: Table, c: Symbol) {
    c in t && t[c] in t && !Leaf(t[c])
  }

  /** What the checker relies on: a tree under Object in which Int, Bool and String are leaves. */
  ghost predicate Tree(t: Table) {
    && Object in t && t[Object] == NoClass
    && Int in t && Bool in t && Str in t && IO in t
    && NoClass !in t && NoType !in t && SelfType !in t
    && (forall c {:trigger ParentOk(t, c)} :: c in t && c != Object ==> ParentOk(t, c))
    && (forall c {:trigger Rooted(t, c)} :: c in t ==> Rooted(t, c))
  }

  lemma {:induction false} UpFromObject(t: Table, n: nat)
    requires Object in t && t[Object] == NoClass && NoClass !in t && n > 0
    ensures Up(t, Object, n) == NoClass
  {
    assert Up(t, Object, n) == Up(t, NoClass, n - 1);
  }

  lemma {:induction false} UpAdd(t: Table, c: Symbol, m: nat, n: nat)
    requires NoClass !in t
    ensures Up(t, c, m + n) == Up(t, Up(t, c, m), n)
    decreases m
  {
    if m > 0 && c in t {
      UpAdd(t, t[c], m - 1, n);
    } else if m > 0 {
      assert Up(t, NoClass, n) == NoClass;
    }
  }

  ghost function Depth(t: Table, c: Symbol): (n: nat)
    requires Tree(t) && c in t
    ensures Up(t, c, n) == Object
  {
    assert Rooted(t, c);
    var n: nat :| Up(t, c, n) == Object;
    n
  }

  lemma {:induction false} PastObject(t: Table, c: Symbol, m: nat, n: nat)
    requires Tree(t) && Up(t, c, m) == Object && m < n
    ensures Up(t, c, n) == NoClass
  {
    UpAdd(t, c, m, n - m);
    UpFromObject(t, n - m);
  }

  lemma {:induction false} DepthUnique(t: Table, c: Symbol, m: nat, n: nat)
    requires Tree(t) && Up(t, c, m) == Object == Up(t, c, n)
    ensures m == n
  {
    if m < n {
      PastObject(t, c, m, n);
    } else if n < m {
      PastObject(t, c, n, m);
    }
  }

  lemma DepthParent(t: Table, c: Symbol)
    requires Tree(t) && c in t && c != Object
    ensures t[c] in t && !Leaf(t[c])
    ensures Depth(t, c) == Depth(t, t[c]) + 1
  {
    assert ParentOk(t, c);
    assert Up(t, c, Depth(t, t[c]) + 1) == Object;
    DepthUnique(t, c, Depth(t, c), Depth(t, t[c]) + 1);
  }

  /** a is c or one of its ancestors. */
  predicate Below(t: Table, c: Symbol, a: Symbol)
    requires Tree(t) && c in t
    decreases Depth(t, c)
  {
    c == a || (c != Object && (DepthParent(t, c); Below(t, t[c], a)))
  }

  /** From Object down to c. */
  function Path(t: Table, c: Symbol): (p: seq<Symbol>)
    requires Tree(t) && c in t
    ensures |p| > 0 && p[|p| - 1] == c && p[0] == Object
    ensures forall x <- p :: x in t
    decreases Depth(t, c)
  {
    if c == Object then [Object] else (DepthParent(t, c); Path(t, t[c]) + [c])
  }

  // ---------------------------------------------------------------- a partial order

  ghost predicate Reaches(t: Table, c: Symbol, a: Symbol) {
    exists n: nat :: Up(t, c, n) == a
  }

  lemma ReachesStep(t: Table, c: Symbol, a: Symbol)
    requires c in t
    ensures Reaches(t, c, a) <==> c == a || Reaches(t, t[c], a)
  {
    assert Up(t, c, 0) == c;
    if Reaches(t, t[c], a) {
      var n: nat :| Up(t, t[c], n) == a;
      assert Up(t, c, n + 1) == a;
    }
    if Reaches(t, c, a) && c != a {
      var n: nat :| Up(t, c, n) == a;
      assert Up(t, t[c], n - 1) == a;
    }
  }

  /** The subtype order is reachability through parents. */
  lemma {:induction false} BelowIsReachability(t: Table, c: Symbol, a: Symbol)
    requires Tree(t) && c in t && a in t
    ensures Below(t, c, a) <==> Reaches(t, c, a)
    decreases Depth(t, c)
  {
    ReachesStep(t, c, a);
    if c == Object {
      assert Reaches(t, NoClass, a) ==> exists n: nat :: Up(t, NoClass, n) == a;
      assert forall n: nat :: Up(t, NoClass, n) == NoClass;
    } else {
      DepthParent(t, c);
      BelowIsReachability(t, t[c], a);
    }
  }

  lemma {:induction false} BelowIn(t: Table, c: Symbol, a: Symbol)
    requires Tree(t) && c in t && Below(t, c, a)
    ensures a in t && Depth(t, a) <= Depth(t, c)
    ensures Depth(t, a) == Depth(t, c) ==> a == c
    decreases Depth(t, c)
  {
    if c != a {
      DepthParent(t, c);
      BelowIn(t, t[c], a);
    }
  }

  lemma {:induction false} BelowObject(t: Table, c: Symbol)
    requires Tree(t) && c in t
    ensures Below(t, c, Object)
    decreases Depth(t, c)
  {
    if c != Object {
      DepthParent(t, c);
      BelowObject(t, t[c]);
    }
  }

  lemma {:induction false} BelowTransitive(t: Table, a: Symbol, b: Symbol, c: Symbol)
    requires Tree(t) && a in t && b in t && Below(t, a, b) && Below(t, b, c)
    ensures Below(t, a, c)
    decreases Depth(t, a)
  {
    if a != b {
      DepthParent(t, a);
      BelowTransitive(t, t[a], b, c);
    }
  }

  lemma {:induction false} BelowAntisymmetric(t: Table, a: Symbol, b: Symbol)
    requires Tree(t) && a in t && b in t && Below(t, a, b) && Below(t, b, a)
    ensures a == b
  {
    BelowIn(t, a, b);
    BelowIn(t, b, a);
  }

  lemma {:induction false} LeafBelow(t: Table, c: Symbol, a: Symbol)
    requires Tree(t) && c in t && Leaf(a) && Below(t, c, a)
    ensures c == a
    decreases Depth(t, c)
  {
    if c != a {
      DepthParent(t, c);
      LeafBelow(t, t[c], a);
      assert false;
    }
  }

  lemma {:induction false} PathIsBelow(t: Table, c: Symbol, a: Symbol)
    requires Tree(t) && c in t
    ensures a in Path(t, c) <==> Below(t, c, a)
    decreases Depth(t, c)
  {
    if c != Object {
      DepthParent(t, c);
      PathIsBelow(t, t[c], a);
    }
  }

  /** The path of an ancestor is a prefix. */
  lemma {:induction false} PathPrefix(t: Table, c: Symbol, a: Symbol)
    requires Tree(t) && c in t && a in t && Below(t, c, a)
    ensures Path(t, a) <= Path(t, c)
    decreases Depth(t, c)
  {
    if c != a {
      DepthParent(t, c);
      PathPrefix(t, t[c], a);
    }
  }

  lemma {:induction false} PathAt(t: Table, c: Symbol, i: nat)
    requires Tree(t) && c in t && i < |Path(t, c)|
    ensures Path(t, Path(t, c)[i]) == Path(t, c)[..i + 1]
    decreases Depth(t, c)
  {
    var p := Path(t, c);
    if i == |p| - 1 {
      assert p[..i + 1] == p;
    } else {
      DepthParent(t, c);
      PathAt(t, t[c], i);
      assert p[..i + 1] == Path(t, t[c])[..i + 1];
    }
  }

  // ---------------------------------------------------------------- the least common ancestor

  function CommonLen(p: seq<Symbol>, q: seq<Symbol>): (k: nat)
    ensures k <= |p| && k <= |q|
    decreases |p|
  {
    if p != [] && q != [] && p[0] == q[0] then 1 + CommonLen(p[1..], q[1..]) else 0
  }

  lemma {:induction false} CommonLenIs(p: seq<Symbol>, q: seq<Symbol>, m: nat)
    requires m <= |p| && m <= |q|
    ensures p[..m] == q[..m] <==> m <= CommonLen(p, q)
    decreases |p|
  {
    if m > 0 {
      assert p[..m] == [p[0]] + p[1..][..m - 1];
      assert q[..m] == [q[0]] + q[1..][..m - 1];
      if p[0] == q[0] {
        CommonLenIs(p[1..], q[1..], m - 1);
      } else {
        assert p[..m][0] != q[..m][0];
      }
    }
  }

  /** The last class the two paths from Object share. */
  function Join(t: Table, a: Symbol, b: Symbol): (j: Symbol)
    requires Tree(t) && a in t && b in t
    ensures j in t
  {
    var p, q := Path(t, a), Path(t, b);
    var k := CommonLen(p, q);
    if k == 0 then Object else p[k - 1]
  }

  /** Join is the least upper bound: its ancestors are exactly the common ancestors. */
  lemma {:induction false} JoinIsLeast(t: Table, a: Symbol, b: Symbol, u: Symbol)
    requires Tree(t) && a in t && b in t
    ensures Below(t, Join(t, a, b), u) <==> Below(t, a, u) && Below(t, b, u)
  {
    hide Below, Path, CommonLen, Tree;
    var p, q, j := Path(t, a), Path(t, b), Join(t, a, b);
    var k := CommonLen(p, q);
    CommonLenIs(p, q, 1);
    CommonLenIs(p, q, k);
    assert k > 0 by { assert p[..1] == [Object] == q[..1]; }
    assert p[k - 1] == p[..k][k - 1] == q[k - 1];
    PathIsBelow(t, a, j);
    PathIsBelow(t, b, j);
    if Below(t, j, u) {
      BelowTransitive(t, a, j, u);
      BelowTransitive(t, b, j, u);
    }
    if Below(t, a, u) && Below(t, b, u) {
      CommonAbove(t, a, b, u);
    }
  }

  lemma {:induction false} CommonAbove(t: Table, a: Symbol, b: Symbol, u: Symbol)
    requires Tree(t) && a in t && b in t && Below(t, a, u) && Below(t, b, u)
    ensures Below(t, Join(t, a, b), u)
  {
    hide Below, Path, CommonLen, Tree;
    var p, q := Path(t, a), Path(t, b);
    var k := CommonLen(p, q);
    BelowIn(t, a, u);
    PathPrefix(t, a, u);
    PathPrefix(t, b, u);
    var m := |Path(t, u)|;
    CommonLenIs(p, q, m);
    PathAt(t, a, k - 1);
    assert p[..k][m - 1] == u;
    PathIsBelow(t, Join(t, a, b), u);
  }

  /** A class is determined by its ancestors. */
  lemma {:induction false} SameAbove(t: Table, a: Symbol, b: Symbol)
    requires Tree(t) && a in t && b in t
    requires forall u :: Below(t, a, u) <==> Below(t, b, u)
    ensures a == b
  {
    assert Below(t, a, a) && Below(t, b, b);
    BelowAntisymmetric(t, a, b);
  }

  lemma JoinCommutes(t: Table, a: Symbol, b: Symbol)
    requires Tree(t) && a in t && b in t
    ensures Join(t, a, b) == Join(t, b, a)
  {
    forall u
      ensures Below(t, Join(t, a, b), u) <==> Below(t, Join(t, b, a), u)
    {
      JoinIsLeast(t, a, b, u);
      JoinIsLeast(t, b, a, u);
    }
    SameAbove(t, Join(t, a, b), Join(t, b, a));
  }

  lemma JoinAssociates(t: Table, a: Symbol, b: Symbol, c: Symbol)
    requires Tree(t) && a in t && b in t && c in t
    ensures Join(t, Join(t, a, b), c) == Join(t, a, Join(t, b, c))
  {
    var left, right := Join(t, Join(t, a, b), c), Join(t, a, Join(t, b, c));
    forall u
      ensures Below(t, left, u) <==> Below(t, right, u)
    {
      JoinIsLeast(t, a, b, u);
      JoinIsLeast(t, Join(t, a, b), c, u);
      JoinIsLeast(t, b, c, u);
      JoinIsLeast(t, a, Join(t, b, c), u);
    }
    SameAbove(t, left, right);
  }

  // ---------------------------------------------------------------- SELF_TYPE

  /** The class a type stands for while class cur is being checked. */
  function Resolve(cur: Symbol, c: Symbol): Symbol {
    if c == SelfType then cur else c
  }

  predicate Known(t: Table, c: Symbol) {
    c == SelfType || c in t
  }

  /** CheckInheritance's answer: SELF_TYPE conforms to what cur conforms to, and only SELF_TYPE conforms to it. */
  predicate Conforms(t: Table, cur: Symbol, child: Symbol, ancestor: Symbol)
    requires Tree(t) && cur in t && Known(t, child)
  {
    if ancestor == SelfType then child == SelfType else Below(t, Resolve(cur, child), ancestor)
  }

  /** FindCommonAncestor's answer. */
  function CommonAncestor(t: Table, cur: Symbol, a: Symbol, b: Symbol): (r: Symbol)
    requires Tree(t) && cur in t && Known(t, a) && Known(t, b)
    ensures r in t
  {
    Join(t, Resolve(cur, a), Resolve(cur, b))
  }

  lemma ConformsTransitive(t: Table, cur: Symbol, a: Symbol, b: Symbol, c: Symbol)
    requires Tree(t) && cur in t && Known(t, a) && Known(t, b)
    requires Conforms(t, cur, a, b) && Conforms(t, cur, b, c)
    ensures Conforms(t, cur, a, c)
  {
    if b != SelfType && c != SelfType {
      BelowTransitive(t, Resolve(cur, a), b, c);
    }
  }

  lemma {:induction false} PlainConforms(t: Table, cur: Symbol, c: Symbol, u: Symbol)
    requires Tree(t) && cur in t && Known(t, c) && u != SelfType
    ensures Resolve(cur, c) in t && (c in t ==> Resolve(cur, c) == c)
    ensures Conforms(t, cur, c, u) == Below(t, Resolve(cur, c), u)
  {
    assert SelfType !in t;
    hide Below, Tree;
  }

  lemma JoinedResolved(t: Table, cur: Symbol, a: Symbol, b: Symbol)
    requires Tree(t) && cur in t && Known(t, a) && Known(t, b)
    ensures Resolve(cur, a) in t && Resolve(cur, b) in t
    ensures var j := Join(t, Resolve(cur, a), Resolve(cur, b)); CommonAncestor(t, cur, a, b) == j && j in t && Known(t, j)
  {
    hide Tree, Below, Join;
  }

  /** Both arguments conform to the common ancestor, and it conforms to every type that both conform to. */
  lemma CommonAncestorIsLeast(t: Table, cur: Symbol, a: Symbol, b: Symbol, u: Symbol)
    requires Tree(t) && cur in t && Known(t, a) && Known(t, b) && u != SelfType
    ensures Conforms(t, cur, CommonAncestor(t, cur, a, b), u)
            <==> Conforms(t, cur, a, u) && Conforms(t, cur, b, u)
  {
    hide *;
    JoinedResolved(t, cur, a, b);
    var ra, rb := Resolve(cur, a), Resolve(cur, b);
    JoinIsLeast(t, ra, rb, u);
    PlainConforms(t, cur, a, u);
    PlainConforms(t, cur, b, u);
    PlainConforms(t, cur, Join(t, ra, rb), u);
  }

  /** SELF_TYPE is the class being checked when it is the child, and above itself alone; no join is SELF_TYPE. */
  lemma SelfTypeRules(t: Table, cur: Symbol, a: Symbol, b: Symbol)
    requires Tree(t) && cur in t && a in t && b in t
    ensures Conforms(t, cur, SelfType, SelfType)
    ensures !Conforms(t, cur, a, SelfType)
    ensures Conforms(t, cur, SelfType, a) <==> Reaches(t, cur, a)
    ensures Conforms(t, cur, b, a) <==> Reaches(t, b, a)
    ensures forall u | u in t ::
              Reaches(t, CommonAncestor(t, cur, SelfType, b), u) <==> Reaches(t, cur, u) && Reaches(t, b, u)
    ensures CommonAncestor(t, cur, b, SelfType) == CommonAncestor(t, cur, SelfType, b)
    ensures CommonAncestor(t, cur, SelfType, SelfType) == cur
    ensures CommonAncestor(t, cur, SelfType, b) != SelfType && CommonAncestor(t, cur, a, b) != SelfType
  {
    BelowIsReachability(t, cur, a);
    BelowIsReachability(t, b, a);
    JoinCommutes(t, b, cur);
    forall u | u in t
      ensures Reaches(t, CommonAncestor(t, cur, SelfType, b), u) <==> Reaches(t, cur, u) && Reaches(t, b, u)
    {
      JoinIsLeast(t, cur, b, u);
      BelowIsReachability(t, cur, u);
      BelowIsReachability(t, b, u);
      BelowIsReachability(t, Join(t, cur, b), u);
    }
    JoinIsLeast(t, cur, cur, cur);
    JoinIsLeast(t, cur, cur, Join(t, cur, cur));
    BelowAntisymmetric(t, cur, Join(t, cur, cur));
  }

  // ---------------------------------------------------------------- the type of a case

  /** The loop over the branch types. */
  function JoinAll(t: Table, cur: Symbol, types: seq<Symbol>): (r: Symbol)
    requires Tree(t) && cur in t && types != [] && (forall c <- types :: Known(t, c))
    ensures Known(t, r) && (|types| > 1 ==> r in t)
    decreases |types|
  {
    var n := |types| - 1;
    if n == 0 then types[0] else CommonAncestor(t, cur, JoinAll(t, cur, types[..n]), types[n])
  }

  lemma {:induction false} JoinAllIsLeast(t: Table, cur: Symbol, types: seq<Symbol>, u: Symbol)
    requires Tree(t) && cur in t && types != [] && (forall c <- types :: Known(t, c)) && u != SelfType
    ensures Conforms(t, cur, JoinAll(t, cur, types), u) <==> forall c <- types :: Conforms(t, cur, c, u)
    decreases |types|
  {
    var n := |types| - 1;
    assert types == types[..n] + [types[n]];
    if n > 0 {
      JoinAllIsLeast(t, cur, types[..n], u);
      CommonAncestorIsLeast(t, cur, JoinAll(t, cur, types[..n]), types[n], u);
    }
  }

  /** The type of a case depends on which types its branches have, not on their order. */
  lemma {:induction false} CaseTypeIgnoresOrder(t: Table, cur: Symbol, xs: seq<Symbol>, ys: seq<Symbol>)
    requires Tree(t) && cur in t && xs != [] && (forall c <- xs :: Known(t, c))
    requires multiset(xs) == multiset(ys)
    ensures ys != [] && (forall c <- ys :: Known(t, c)) && JoinAll(t, cur, xs) == JoinAll(t, cur, ys)
  {
    hide Below;
    assert |xs| == |multiset(xs)| == |multiset(ys)| == |ys|;
    assert forall c :: c in xs <==> c in multiset(xs);
    assert forall c :: c in ys <==> c in multiset(ys);
    if |xs| == 1 {
      assert ys[0] in xs;
    } else {
      var x, y := JoinAll(t, cur, xs), JoinAll(t, cur, ys);
      forall u
        ensures Below(t, x, u) <==> Below(t, y, u)
      {
        if u == SelfType {
          if Below(t, x, u) { BelowIn(t, x, u); }
          if Below(t, y, u) { BelowIn(t, y, u); }
        } else {
          JoinAllIsLeast(t, cur, xs, u);
          JoinAllIsLeast(t, cur, ys, u);
        }
      }
      SameAbove(t, x, y);
    }
  }
}
