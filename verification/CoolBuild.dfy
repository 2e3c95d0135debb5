/**
  Building the class table: which programs are accepted, what acceptance is worth, and when the inheritance
  check never ends.
*/
module CoolBuild {
  import opened CoolClasses

  datatype ClassDecl = ClassDecl(name: Symbol, parent: Symbol)

  /** The names a parser can produce for a class. */
  predicate Spelled(decls: seq<ClassDecl>) {
    forall d <- decls :: d.name != NoClass && d.name != NoType
  }

  /** install_basic_classes */
  function Basic(): Table {
    map[Object := NoClass, IO := Object, Int := Object, Bool := Object, Str := Object]
  }

  datatype Inserted = Inserted(table: Table, errors: nat, duplicate: bool)

  /** The first loop: a class called SELF_TYPE is an error but goes in; a second declaration ends everything. */
  function Insert(t: Table, errors: nat, decls: seq<ClassDecl>): Inserted
    decreases |decls|
  {
    if decls == [] then
      Inserted(t, errors, false)
    else
      var d := decls[0];
      var errors' := if d.name == SelfType then errors + 1 else errors;
      if d.name in t then Inserted(t, errors' + 1, true) else Insert(t[d.name := d.parent], errors', decls[1..])
  }

  datatype Verdict = Root | Missing | Forbidden | Cycle | Endless

  predicate Uninheritable(p: Symbol) {
    p == Int || p == Str || p == SelfType || p == Bool
  }

  /** The second loop on one class, from parent p on, for at most `steps` moves. */
  function Walk(t: Table, own: Symbol, p: Symbol, steps: nat): Verdict
    decreases steps
  {
    if p == Object then Root
    else if p == own then Cycle
    else if p !in t then Missing
    else if Uninheritable(p) then Forbidden
    else if steps == 0 then Endless
    else Walk(t, own, t[p], steps - 1)
  }

  /** The verdict of the first class that is not rooted. */
  function Examine(t: Table, decls: seq<ClassDecl>): Verdict
    decreases |decls|
  {
    if decls == [] then Root
    else
      var v := Walk(t, decls[0].name, decls[0].parent, |t|);
      if v == Root then Examine(t, decls[1..]) else v
  }

  datatype Built = Built(table: Table, errors: nat) | Diverges

  function Construct(decls: seq<ClassDecl>): Built {
    var r := Insert(Basic(), 0, decls);
    if r.duplicate then Built(r.table, r.errors)
    else
      var errors := if Main in r.table then r.errors else r.errors + 1;
      match Examine(r.table, decls)
      case Root => Built(r.table, errors)
      case Endless => Diverges
      case _ => Built(r.table, errors + 1)
  }

  predicate Accepts(decls: seq<ClassDecl>) {
    Construct(decls).Built? && Construct(decls).errors == 0
  }

  // ---------------------------------------------------------------- when the check never ends

  /** The inner loop goes on past p. */
  predicate Passes(t: Table, own: Symbol, p: Symbol) {
    p != Object && p != own && p in t && !Uninheritable(p)
  }

  /** The loop passes the first n classes of the chain from p. */
  predicate PassesAll(t: Table, own: Symbol, p: Symbol, n: nat) {
    forall i | 0 <= i < n :: Passes(t, own, Up(t, p, i))
  }

  lemma PassesSplit(t: Table, own: Symbol, p: Symbol, n: nat)
    requires n > 0
    ensures PassesAll(t, own, p, n) <==> Passes(t, own, p) && PassesAll(t, own, t[p], n - 1)
  {
    assert Up(t, p, 0) == p;
    if Passes(t, own, p) {
      assert forall i: nat :: Up(t, t[p], i) == Up(t, p, i + 1);
      if PassesAll(t, own, t[p], n - 1) {
        forall i | 0 <= i < n
          ensures Passes(t, own, Up(t, p, i))
        {
          if i > 0 { assert Passes(t, own, Up(t, t[p], i - 1)); }
        }
      }
    }
  }

  lemma {:induction false} RunningMeans(t: Table, own: Symbol, p: Symbol, n: nat)
    ensures Walk(t, own, p, n) == Endless <==> PassesAll(t, own, p, n + 1)
    decreases n
  {
    PassesSplit(t, own, p, n + 1);
    if Passes(t, own, p) && n > 0 {
      RunningMeans(t, own, t[p], n - 1);
    }
  }

  lemma {:induction false} MoreSteps(t: Table, own: Symbol, p: Symbol, m: nat, n: nat)
    requires m <= n && Walk(t, own, p, m) != Endless
    ensures Walk(t, own, p, n) == Walk(t, own, p, m)
    decreases m
  {
    if Passes(t, own, p) { MoreSteps(t, own, t[p], m - 1, n - 1); }
  }

  lemma {:induction false} Pigeonhole(xs: seq<Symbol>, s: set<Symbol>)
    requires (forall x <- xs :: x in s) && |xs| > |s|
    ensures exists i, j | 0 <= i < j < |xs| :: xs[i] == xs[j]
    decreases |xs|
  {
    var n := |xs| - 1;
    if i :| 0 <= i < n && xs[i] == xs[n] {
    } else {
      Pigeonhole(xs[..n], s - {xs[n]});
    }
  }

  ghost predicate Revisits(t: Table, p: Symbol, i: nat, j: nat) {
    i < j && Up(t, p, i) == Up(t, p, j)
  }

  lemma {:induction false} RoundAgain(t: Table, p: Symbol, i: nat, j: nat, n: nat)
    requires NoClass !in t && Revisits(t, p, i, j) && i <= n
    ensures exists k: nat :: k < j && Up(t, p, n) == Up(t, p, k)
    decreases n
  {
    if n >= j {
      UpAdd(t, p, j, n - j);
      UpAdd(t, p, i, n - j);
      RoundAgain(t, p, i, j, n - j + i);
    }
  }

  lemma RoundForever(t: Table, own: Symbol, p: Symbol, i: nat, j: nat, n: nat)
    requires NoClass !in t && Revisits(t, p, i, j) && PassesAll(t, own, p, j)
    ensures PassesAll(t, own, p, n)
  {
    forall k | 0 <= k < n
      ensures Passes(t, own, Up(t, p, k))
    {
      if k >= i { RoundAgain(t, p, i, j, k); }
    }
  }

  lemma Repeats(t: Table, own: Symbol, p: Symbol)
    requires PassesAll(t, own, p, |t| + 1)
    ensures exists i: nat, j: nat :: Revisits(t, p, i, j) && PassesAll(t, own, p, j)
  {
    var xs := seq(|t| + 1, i requires 0 <= i <= |t| => Up(t, p, i));
    forall x | x in xs
      ensures x in t.Keys
    {
      var i :| 0 <= i < |xs| && xs[i] == x;
      assert Passes(t, own, Up(t, p, i));
    }
    Pigeonhole(xs, t.Keys);
    var i, j :| 0 <= i < j < |xs| && xs[i] == xs[j];
    assert Revisits(t, p, i, j);
    assert PassesAll(t, own, p, j);
  }

  /**
    The inner loop runs forever exactly when it is still running after as many moves as there are classes, and
    exactly when it goes round a cycle that has no class that would stop it.
  */
  lemma {:induction false} DivergenceDecided(t: Table, own: Symbol, p: Symbol)
    requires NoClass !in t
    ensures Walk(t, own, p, |t|) == Endless <==> forall n: nat :: Walk(t, own, p, n) == Endless
    ensures Walk(t, own, p, |t|) == Endless
            <==> exists i: nat, j: nat :: Revisits(t, p, i, j) && PassesAll(t, own, p, j)
  {
    RunningMeans(t, own, p, |t|);
    if Walk(t, own, p, |t|) == Endless {
      Repeats(t, own, p);
    }
    if i: nat, j: nat :| Revisits(t, p, i, j) && PassesAll(t, own, p, j) {
      forall m: nat
        ensures Walk(t, own, p, m) == Endless
      {
        RunningMeans(t, own, p, m);
        RoundForever(t, own, p, i, j, m + 1);
      }
    }
  }

  /** A class the inner loop goes past. */
  predicate GoesOn(t: Table, own: Symbol, p: Symbol) {
    p in t && p !in {own, Object, Int, Str, Bool, SelfType}
  }

  /** The inner loop goes up k classes, and the next one is its verdict. */
  lemma {:induction false} WalkVerdict(t: Table, own: Symbol, p: Symbol, k: nat, n: nat)
    requires k <= n && forall i | 0 <= i < k :: GoesOn(t, own, Up(t, p, i))
    ensures var q, v := Up(t, p, k), Walk(t, own, p, n);
            && (q == Object ==> v == Root)
            && (q == own && q != Object ==> v == Cycle)
            && (q !in t && q != own && q != Object ==> v == Missing)
            && (q in t && q != own && q in {Int, Str, Bool, SelfType} ==> v == Forbidden)
            && (k == n && GoesOn(t, own, q) ==> v == Endless)
    decreases k
  {
    if k > 0 {
      assert GoesOn(t, own, Up(t, p, 0));
      forall i | 0 <= i < k - 1
        ensures GoesOn(t, own, Up(t, t[p], i))
      {
        assert GoesOn(t, own, Up(t, p, i + 1));
      }
      WalkVerdict(t, own, t[p], k - 1, n - 1);
    }
  }

  // ---------------------------------------------------------------- what insertion builds

  predicate Distinct(decls: seq<ClassDecl>) {
    forall i, j | 0 <= i < j < |decls| :: decls[i].name != decls[j].name
  }

  predicate Declared(decls: seq<ClassDecl>, name: Symbol) {
    exists d <- decls :: d.name == name
  }

  function Count(b: bool): nat {
    if b then 1 else 0
  }

  ghost predicate Holds(t0: Table, t: Table, decls: seq<ClassDecl>) {
    && (forall c <- t0 :: c in t && t[c] == t0[c])
    && (forall d <- decls :: d.name in t && t[d.name] == d.parent)
    && (forall c <- t :: c in t0 || exists d <- decls :: d.name == c)
  }

  /** No duplicate exactly when the names are new and distinct; then every class is there with its parent. */
  lemma {:induction false} InsertHolds(t: Table, errors: nat, decls: seq<ClassDecl>)
    ensures var r := Insert(t, errors, decls);
            && r.errors >= errors
            && (r.duplicate ==> r.errors > errors)
            && (!r.duplicate <==> Distinct(decls) && forall d <- decls :: d.name !in t)
            && (!r.duplicate ==> Holds(t, r.table, decls))
            && (!r.duplicate ==> r.errors == errors + Count(Declared(decls, SelfType)))
    decreases |decls|
  {
    if decls != [] {
      var d, rest := decls[0], decls[1..];
      assert decls == [d] + rest;
      if d.name !in t {
        InsertHolds(t[d.name := d.parent], if d.name == SelfType then errors + 1 else errors, rest);
        DistinctSplit(d, rest);
      }
    }
  }

  lemma DistinctSplit(d: ClassDecl, rest: seq<ClassDecl>)
    ensures Distinct([d] + rest) <==> Distinct(rest) && forall e <- rest :: e.name != d.name
  {
    var all := [d] + rest;
    if Distinct(all) {
      forall i, j | 0 <= i < j < |rest|
        ensures rest[i].name != rest[j].name
      {
        assert all[i + 1].name != all[j + 1].name;
      }
      forall e | e in rest
        ensures e.name != d.name
      {
        var k :| 0 <= k < |rest| && rest[k] == e;
        assert all[0].name != all[k + 1].name;
      }
    }
    if Distinct(rest) && forall e <- rest :: e.name != d.name {
      forall i, j | 0 <= i < j < |all|
        ensures all[i].name != all[j].name
      {
        assert all[j] == rest[j - 1];
        if i > 0 { assert all[i] == rest[i - 1]; }
      }
    }
  }

  lemma {:induction false} ExamineAll(t: Table, decls: seq<ClassDecl>)
    ensures Examine(t, decls) == Root <==> forall d <- decls :: Walk(t, d.name, d.parent, |t|) == Root
    decreases |decls|
  {
    if decls != [] {
      assert decls == [decls[0]] + decls[1..];
      ExamineAll(t, decls[1..]);
    }
  }

  // ---------------------------------------------------------------- acceptance

  lemma {:induction false} RootIsRooted(t: Table, own: Symbol, p: Symbol, n: nat)
    requires Walk(t, own, p, n) == Root
    ensures Rooted(t, p) && (p == Object || (p in t && !Uninheritable(p)))
    decreases n
  {
    assert Up(t, Object, 0) == Object;
    if p != Object {
      RootIsRooted(t, own, t[p], n - 1);
      var k: nat :| Up(t, t[p], k) == Object;
      assert Up(t, p, k + 1) == Object;
    }
  }

  lemma {:induction false} TreeIsRoot(t: Table, own: Symbol, p: Symbol)
    requires Tree(t) && own in t && p in t && !Leaf(p) && Depth(t, p) < Depth(t, own)
    ensures Walk(t, own, p, Depth(t, p)) == Root
    decreases Depth(t, p)
  {
    if p != Object {
      DepthParent(t, p);
      TreeIsRoot(t, own, t[p]);
    }
  }

  lemma {:induction false} WalkTree(t: Table, own: Symbol)
    requires Tree(t) && own in t && own != Object
    ensures Walk(t, own, t[own], |t|) == Root
  {
    var p := t[own];
    DepthParent(t, own);
    TreeIsRoot(t, own, p);
    DivergenceDecided(t, own, p);
    if Depth(t, p) <= |t| {
      MoreSteps(t, own, p, Depth(t, p), |t|);
    } else {
      MoreSteps(t, own, p, |t|, Depth(t, p));
    }
  }

  /** The declarations the table stands for, whatever order they come in. */
  ghost predicate WellDeclared(decls: seq<ClassDecl>) {
    && Distinct(decls)
    && (forall d <- decls :: d.name !in Basic() && d.name != SelfType)
    && (exists d <- decls :: d.name == Main)
    && exists t :: Holds(Basic(), t, decls) && Tree(t)
  }

  lemma HoldsUnique(t0: Table, s: Table, t: Table, decls: seq<ClassDecl>)
    requires Holds(t0, s, decls) && Holds(t0, t, decls)
    ensures s == t
  {
    assert forall c :: c in s <==> c in t;
    assert forall c <- s :: s[c] == t[c];
  }

  lemma {:induction false} AcceptedTree(t: Table, decls: seq<ClassDecl>)
    requires Spelled(decls) && Holds(Basic(), t, decls)
    requires forall d <- decls :: d.name !in Basic() && d.name != SelfType
    requires forall d <- decls :: Walk(t, d.name, d.parent, |t|) == Root
    ensures Tree(t)
  {
    BasicRoot(t, decls);
    hide Basic;
    forall c | c in t
      ensures Rooted(t, c) && (c != Object ==> t[c] in t && !Leaf(t[c]))
    {
      if c !in Basic() {
        var d :| d in decls && d.name == c;
        DeclaredRoot(t, d);
      }
    }
  }

  lemma BasicRoot(t: Table, decls: seq<ClassDecl>)
    requires Holds(Basic(), t, decls)
    ensures Object in t && IO in t && Int in t && Bool in t && Str in t && t[Object] == NoClass
    ensures NoClass !in Basic() && NoType !in Basic() && SelfType !in Basic()
    ensures forall c <- Basic() :: c in t && Rooted(t, c) && (c != Object ==> t[c] in t && !Leaf(t[c]))
  {
    assert Object in Basic() && IO in Basic() && Int in Basic() && Bool in Basic() && Str in Basic();
    forall c | c in Basic()
      ensures c in t && Rooted(t, c)
    {
      assert Up(t, Object, 0) == Object;
      if c != Object { assert Up(t, c, 1) == Up(t, Object, 0); }
    }
  }

  lemma {:induction false} DeclaredRoot(t: Table, d: ClassDecl)
    requires d.name in t && t[d.name] == d.parent && Object in t
    requires Walk(t, d.name, d.parent, |t|) == Root
    ensures Rooted(t, d.name) && d.parent in t && !Leaf(d.parent)
  {
    RootIsRooted(t, d.name, d.parent, |t|);
    var k: nat :| Up(t, d.parent, k) == Object;
    assert Up(t, d.name, k + 1) == Object;
  }

  lemma {:induction false} InsertOn(t: Table, errors: nat, xs: seq<ClassDecl>, ys: seq<ClassDecl>)
    requires !Insert(t, errors, xs).duplicate
    ensures var r := Insert(t, errors, xs); Insert(t, errors, xs + ys) == Insert(r.table, r.errors, ys)
    decreases |xs|
  {
    if xs == [] {
      assert xs + ys == ys;
    } else {
      var d := xs[0];
      assert (xs + ys)[1..] == xs[1..] + ys;
      InsertOn(t[d.name := d.parent], if d.name == SelfType then errors + 1 else errors, xs[1..], ys);
    }
  }

  /** The first name that is not new is one error and ends it: of the declarations just those before it are in. */
  lemma InsertStops(t: Table, decls: seq<ClassDecl>, k: nat)
    requires k < |decls| && Distinct(decls[..k]) && forall d <- decls[..k] :: d.name !in t
    requires decls[k].name in t || Declared(decls[..k], decls[k].name)
    ensures var r := Insert(t, 0, decls);
            && r.duplicate && Holds(t, r.table, decls[..k])
            && r.errors == Count(Declared(decls[..k], SelfType)) + Count(decls[k].name == SelfType) + 1
            && (t == Basic() ==> Construct(decls) == Built(r.table, r.errors))
  {
    InsertHolds(t, 0, decls[..k]);
    InsertOn(t, 0, decls[..k], decls[k..]);
    assert decls[..k] + decls[k..] == decls;
  }

  /** Of new and distinct classes: a class SELF_TYPE, no class Main, and the first wrong parent are an error each. */
  lemma ErrorsCounted(decls: seq<ClassDecl>)
    requires Distinct(decls) && (forall d <- decls :: d.name !in Basic()) && Construct(decls).Built?
    ensures var r := Construct(decls);
            && Holds(Basic(), r.table, decls)
            && r.errors == Count(Declared(decls, SelfType)) + Count(!Declared(decls, Main))
               + Count(exists d <- decls :: Walk(r.table, d.name, d.parent, |r.table|) != Root)
  {
    hide Insert, Examine, Walk;
    InsertHolds(Basic(), 0, decls);
    ExamineAll(Construct(decls).table, decls);
    assert Main !in Basic();
  }

  /**
    A program is accepted exactly when its classes are new and distinct, Main is among them, and together with
    the basic classes they form a tree under Object in which Int, Bool and String are leaves.
  */
  lemma AcceptsExactly(decls: seq<ClassDecl>)
    requires Spelled(decls)
    ensures Accepts(decls) <==> WellDeclared(decls)
    ensures Accepts(decls) ==> Tree(Construct(decls).table) && Holds(Basic(), Construct(decls).table, decls)
  {
    hide Insert, Examine, Walk, Tree;
    var r := Insert(Basic(), 0, decls);
    InsertHolds(Basic(), 0, decls);
    ExamineAll(r.table, decls);
    assert Main !in Basic();
    if Accepts(decls) {
      AcceptedTree(r.table, decls);
    }
    if WellDeclared(decls) {
      var t :| Holds(Basic(), t, decls) && Tree(t);
      HoldsUnique(Basic(), r.table, t, decls);
      assert Object in Basic();
      forall d | d in decls
        ensures Walk(t, d.name, d.parent, |t|) == Root
      {
        WalkTree(t, d.name);
      }
    }
  }

  /** Two classes that inherit from each other, and a third that leads to them: only the order tells. */
  lemma DivergenceDependsOnOrder()
    ensures var a, b, c := ClassDecl(Main, Named("B")), ClassDecl(Named("B"), Named("C")), ClassDecl(Named("C"), Named("B"));
            Construct([a, b, c]) == Diverges && Construct([b, a, c]).Built? && Construct([b, a, c]).errors == 1
  {
    var a, b, c := ClassDecl(Main, Named("B")), ClassDecl(Named("B"), Named("C")), ClassDecl(Named("C"), Named("B"));
    InsertThree(a, b, c);
    InsertThree(b, a, c);
    var t := Basic()[Main := Named("B")][Named("B") := Named("C")][Named("C") := Named("B")];
    assert t == Basic()[Named("B") := Named("C")][Main := Named("B")][Named("C") := Named("B")];
    GoingRound(t);
    hide Walk, Insert, Basic;
    assert [a, b, c][0] == a && [b, a, c][0] == b;
  }

  lemma InsertThree(a: ClassDecl, b: ClassDecl, c: ClassDecl)
    requires a.name != b.name && a.name != c.name && b.name != c.name
    requires forall d <- [a, b, c] :: d.name !in Basic() && d.name != SelfType
    ensures Insert(Basic(), 0, [a, b, c])
            == Inserted(Basic()[a.name := a.parent][b.name := b.parent][c.name := c.parent], 0, false)
  {
    hide Insert, Basic;
    var t := Basic();
    assert a in [a, b, c] && b in [a, b, c] && c in [a, b, c];
    assert [a, b, c] == [a] + [b, c] && [b, c] == [b] + [c] && [c] == [c] + [];
    InsertOne(t, a, [b, c]);
    InsertOne(t[a.name := a.parent], b, [c]);
    InsertOne(t[a.name := a.parent][b.name := b.parent], c, []);
    InsertNone(t[a.name := a.parent][b.name := b.parent][c.name := c.parent]);
  }

  lemma {:induction false} InsertNone(t: Table)
    ensures Insert(t, 0, []) == Inserted(t, 0, false)
  {
  }

  lemma {:induction false} InsertOne(t: Table, d: ClassDecl, rest: seq<ClassDecl>)
    requires d.name !in t && d.name != SelfType
    ensures Insert(t, 0, [d] + rest) == Insert(t[d.name := d.parent], 0, rest)
  {
    assert ([d] + rest)[1..] == rest;
  }

  lemma {:induction false} GoingRound(t: Table)
    requires NoClass !in t && Main in t && Named("B") in t && Named("C") in t
    requires t[Named("B")] == Named("C") && t[Named("C")] == Named("B")
    ensures Walk(t, Main, Named("B"), |t|) == Endless && Walk(t, Named("B"), Named("C"), |t|) == Cycle
  {
    assert Up(t, Named("B"), 2) == Up(t, Named("C"), 1) == Up(t, Named("B"), 0) == Named("B");
    assert Revisits(t, Named("B"), 0, 2);
    assert Passes(t, Main, Up(t, Named("B"), 0)) && Passes(t, Main, Up(t, Named("B"), 1));
    assert PassesAll(t, Main, Named("B"), 2);
    DivergenceDecided(t, Main, Named("B"));
    assert |t| > 0 by { assert t != map[]; }
    assert Walk(t, Named("B"), Named("C"), 1) == Cycle;
    MoreSteps(t, Named("B"), Named("C"), 1, |t|);
  }
}
