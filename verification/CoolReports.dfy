/**
  What the checker reports on any expression, well typed or not: it goes over every subexpression, each in the scopes
  around it, and the errors are those of each on its own.
*/
module CoolReports {
  import opened CoolClasses
  import opened CoolBuild
  import opened CoolExpr
  import opened CoolPreservation
  import opened CoolTyping
  import opened Common

  /** A subexpression and the scopes it stands in. */
  datatype Place = Place(env: Scopes<Symbol>, e: Expr)

  /** All places of e: a let's initialiser and body and a branch's body are one scope further in. */
  function Places(env: Scopes<Symbol>, e: Expr): seq<Place>
    decreases e, 1
  {
    [Place(env, e)] +
    match e
    case Assign(_, v) => Places(env, v)
    case Cond(p, a, b) => Places(env, p) + Places(env, a) + Places(env, b)
    case Loop(p, b) => Places(env, p) + Places(env, b)
    case Case(s, bs) => Places(env, s) + BranchPlaces(env, bs)
    case Block(es) => BlockPlaces(env, es)
    case Let(x, d, i, b) => Places(env + [map[x := d]], i) + Places(env + [map[x := d]], b)
    case Arith(_, a, b) => Places(env, a) + Places(env, b)
    case Neg(a) => Places(env, a)
    case Compare(_, a, b) => Places(env, a) + Places(env, b)
    case Equal(a, b) => Places(env, a) + Places(env, b)
    case Not(a) => Places(env, a)
    case IsVoid(a) => Places(env, a)
    case _ => []
  }

  function BlockPlaces(env: Scopes<Symbol>, es: Exprs): seq<Place>
    decreases es, 0
  {
    match es
    case One(e) => Places(env, e)
    case More(e, rest) => Places(env, e) + BlockPlaces(env, rest)
  }

  function BranchPlaces(env: Scopes<Symbol>, bs: Branches): seq<Place>
    decreases bs, 0
  {
    Places(env + [map[bs.branch.name := bs.branch.declared]], bs.branch.body)
    + if bs.And? then BranchPlaces(env, bs.others) else []
  }

  // ---------------------------------------------------------------- one place

  function TypeOf(t: Table, cur: Symbol, env: Scopes<Symbol>, e: Expr): Symbol
    requires Tree(t) && cur in t
  {
    Check(t, cur, env, e).typ
  }

  function BranchTypes(t: Table, cur: Symbol, env: Scopes<Symbol>, bs: Branches): (types: seq<Symbol>)
    requires Tree(t) && cur in t
    ensures types != []
    decreases bs
  {
    [TypeOf(t, cur, env + [map[bs.branch.name := bs.branch.declared]], bs.branch.body)]
    + if bs.And? then BranchTypes(t, cur, env, bs.others) else []
  }

  /** CheckInheritance goes up from a class that is not there. */
  predicate Strays(t: Table, declared: Symbol, a: Symbol) {
    declared != SelfType && a != SelfType && a !in t && a != NoClass && a != declared
  }

  predicate Stores(t: Table, cur: Symbol, declared: Symbol, a: Symbol)
    requires Tree(t) && cur in t
  {
    a != NoClass && FitsInto(t, cur, a, declared)
  }

  /** The pairs of positions with the same element. */
  function Pairs(xs: seq<Symbol>): set<(int, int)> {
    set i: int, j: int | 0 <= i < j < |xs| && xs[i] == xs[j] :: (i, j)
  }

  /** How many errors a place makes, given the types computed for its parts. */
  function WrongHere(t: Table, cur: Symbol, p: Place): nat
    requires Tree(t) && cur in t
  {
    match p.e
    case Assign(x, v) =>
      Count(Lookup(p.env, x) == None || !Stores(t, cur, Lookup(p.env, x).value, TypeOf(t, cur, p.env, v)))
    case Cond(q, _, _) => Count(TypeOf(t, cur, p.env, q) != Bool)
    case Loop(q, _) => Count(TypeOf(t, cur, p.env, q) != Bool)
    case Case(_, bs) => |Pairs(Decls(bs))|
    case Let(x, d, i, _) =>
      var a := TypeOf(t, cur, p.env + [map[x := d]], i);
      Count(x == "self") + Count(a != NoType && !Stores(t, cur, d, a))
    case Arith(_, a, b) => Count(TypeOf(t, cur, p.env, a) != Int || TypeOf(t, cur, p.env, b) != Int)
    case Neg(a) => Count(TypeOf(t, cur, p.env, a) != Int)
    case Compare(_, a, b) => Count(TypeOf(t, cur, p.env, a) != Int || TypeOf(t, cur, p.env, b) != Int)
    case Equal(a, b) => Count(!Comparable(TypeOf(t, cur, p.env, a), TypeOf(t, cur, p.env, b)))
    case Not(a) => Count(TypeOf(t, cur, p.env, a) != Bool)
    case New(c) => Count(!Known(t, c))
    case Var(x) => Count(x != "self" && Lookup(p.env, x) == None)
    case _ => 0
  }

  /** Whether it looks up a class that is not there. */
  predicate LostHere(t: Table, cur: Symbol, p: Place)
    requires Tree(t) && cur in t
  {
    match p.e
    case Assign(x, v) => Lookup(p.env, x) != None && Strays(t, Lookup(p.env, x).value, TypeOf(t, cur, p.env, v))
    case Cond(_, a, b) =>
      var x, y := TypeOf(t, cur, p.env, a), TypeOf(t, cur, p.env, b);
      y != NoType && !(Known(t, x) && Known(t, y))
    case Case(_, bs) =>
      var types := BranchTypes(t, cur, p.env, bs);
      |types| > 1 && exists a <- types :: !Known(t, a)
    case Let(x, d, i, _) =>
      var a := TypeOf(t, cur, p.env + [map[x := d]], i);
      a != NoType && Strays(t, d, a)
    case _ => false
  }

  function Total(t: Table, cur: Symbol, ps: seq<Place>): nat
    requires Tree(t) && cur in t
  {
    if ps == [] then 0 else WrongHere(t, cur, ps[0]) + Total(t, cur, ps[1..])
  }

  predicate AnyLost(t: Table, cur: Symbol, ps: seq<Place>)
    requires Tree(t) && cur in t
  {
    exists p <- ps :: LostHere(t, cur, p)
  }

  lemma {:induction false} TotalAdds(t: Table, cur: Symbol, ps: seq<Place>, qs: seq<Place>)
    requires Tree(t) && cur in t
    ensures Total(t, cur, ps + qs) == Total(t, cur, ps) + Total(t, cur, qs)
    ensures AnyLost(t, cur, ps + qs) <==> AnyLost(t, cur, ps) || AnyLost(t, cur, qs)
    decreases |ps|
  {
    hide Tree, WrongHere, LostHere;
    if ps == [] {
      assert ps + qs == qs;
    } else {
      assert (ps + qs)[1..] == ps[1..] + qs;
      TotalAdds(t, cur, ps[1..], qs);
    }
  }

  lemma TotalOne(t: Table, cur: Symbol, p: Place)
    requires Tree(t) && cur in t
    ensures Total(t, cur, [p]) == WrongHere(t, cur, p)
    ensures AnyLost(t, cur, [p]) <==> LostHere(t, cur, p)
  {
    hide Tree, WrongHere, LostHere;
    assert [p][1..] == [];
    assert p in [p];
  }

  // ---------------------------------------------------------------- pairs

  /** A one-to-one image has as many elements. */
  lemma {:induction false} ImageSize<A, B>(s: set<A>, r: set<B>, f: A -> B)
    requires forall x <- s :: f(x) in r
    requires forall y <- r :: exists x <- s :: f(x) == y
    requires forall x <- s, y <- s :: f(x) == f(y) ==> x == y
    ensures |s| == |r|
    decreases s
  {
    if s == {} {
      assert r == {};
    } else {
      var x :| x in s;
      ImageSize(s - {x}, r - {f(x)}, f);
    }
  }

  function Positions(xs: seq<Symbol>, x: Symbol): set<int> {
    set i: int | 0 <= i < |xs| && xs[i] == x
  }

  lemma {:induction false} CountIsSize(xs: seq<Symbol>, x: Symbol)
    ensures CountOf(xs, x) == |Positions(xs, x)|
    decreases |xs|
  {
    if xs != [] {
      var first: set<int> := if xs[0] == x then {0} else {};
      CountIsSize(xs[1..], x);
      var later := Positions(xs, x) - first;
      forall y | y in later
        ensures exists i <- Positions(xs[1..], x) :: i + 1 == y
      {
        assert y - 1 in Positions(xs[1..], x);
      }
      ImageSize(Positions(xs[1..], x), later, (i: int) => i + 1);
      assert Positions(xs, x) == first + later;
    }
  }

  /** The checker's count is the number of pairs. */
  lemma {:induction false} PairsAreCounted(xs: seq<Symbol>)
    ensures SamePairs(xs) == |Pairs(xs)|
    decreases |xs|
  {
    if xs != [] {
      var rest := xs[1..];
      PairsAreCounted(rest);
      CountIsSize(rest, xs[0]);
      var first := set p <- Pairs(xs) | p.0 == 0;
      FirstPairs(xs, first);
      var later := set p <- Pairs(xs) | p.0 != 0;
      LaterPairs(xs, later);
      assert Pairs(xs) == first + later;
    }
  }

  lemma FirstPairs(xs: seq<Symbol>, first: set<(int, int)>)
    requires xs != [] && first == set p <- Pairs(xs) | p.0 == 0
    ensures |first| == |Positions(xs[1..], xs[0])|
  {
    var s := Positions(xs[1..], xs[0]);
    forall y | y in first
      ensures exists i <- s :: (0, i + 1) == y
    {
      assert y.1 - 1 in s;
    }
    ImageSize(s, first, (i: int) => (0, i + 1));
  }

  lemma LaterPairs(xs: seq<Symbol>, later: set<(int, int)>)
    requires xs != [] && later == set p <- Pairs(xs) | p.0 != 0
    ensures |later| == |Pairs(xs[1..])|
  {
    var s := Pairs(xs[1..]);
    var f := (p: (int, int)) => (p.0 + 1, p.1 + 1);
    forall p | p in s
      ensures f(p) in later
    {
      assert f(p) in Pairs(xs);
    }
    forall y | y in later
      ensures exists p <- s :: f(p) == y
    {
      LaterPair(xs, y);
      assert f((y.0 - 1, y.1 - 1)) == y;
    }
    hide Pairs;
    ImageSize(s, later, f);
  }

  lemma LaterPair(xs: seq<Symbol>, y: (int, int))
    requires xs != [] && y in Pairs(xs) && y.0 != 0
    ensures (y.0 - 1, y.1 - 1) in Pairs(xs[1..])
  {
  }

  // ---------------------------------------------------------------- all places

  lemma InheritsSays(t: Table, cur: Symbol, declared: Symbol, a: Symbol)
    requires Tree(t) && cur in t
    ensures Inherits(t, cur, declared, a) == Answer(Stores(t, cur, declared, a), Strays(t, declared, a))
  {
    assert NoClass !in t;
    hide Tree, Below;
  }

  lemma {:induction false} BranchTypesAre(t: Table, cur: Symbol, env: Scopes<Symbol>, bs: Branches)
    requires Tree(t) && cur in t
    ensures CheckBranches(t, cur, env, bs).types == BranchTypes(t, cur, env, bs)
    decreases bs
  {
    hide Tree, Check;
    if bs.And? { BranchTypesAre(t, cur, env, bs.others); }
  }

  ghost predicate Reported(t: Table, cur: Symbol, ps: seq<Place>, errors: nat, lost: bool)
    requires Tree(t) && cur in t
  {
    errors == Total(t, cur, ps) && (lost <==> AnyLost(t, cur, ps))
  }

  lemma Joined(t: Table, cur: Symbol, ps: seq<Place>, qs: seq<Place>, m: nat, a: bool, n: nat, b: bool)
    requires Tree(t) && cur in t && Reported(t, cur, ps, m, a) && Reported(t, cur, qs, n, b)
    ensures Reported(t, cur, ps + qs, m + n, a || b)
  {
    hide Tree, Total, AnyLost;
    TotalAdds(t, cur, ps, qs);
  }

  lemma HereIs(t: Table, cur: Symbol, p: Place)
    requires Tree(t) && cur in t
    ensures Reported(t, cur, [p], WrongHere(t, cur, p), LostHere(t, cur, p))
  {
    hide Tree, Total, AnyLost, WrongHere, LostHere;
    TotalOne(t, cur, p);
  }

  /** e and its parts, of which ps has been gone over. */
  lemma HereAndInside(t: Table, cur: Symbol, env: Scopes<Symbol>, e: Expr, ps: seq<Place>, errors: nat, lost: bool)
    requires Tree(t) && cur in t && Places(env, e) == [Place(env, e)] + ps && Reported(t, cur, ps, errors, lost)
    requires var c, p := Check(t, cur, env, e), Place(env, e);
             c.errors == WrongHere(t, cur, p) + errors && (c.lost <==> LostHere(t, cur, p) || lost)
    ensures Fine(t, cur, env, e)
  {
    hide Tree, Check, Places, Reported, WrongHere, LostHere;
    var p := Place(env, e);
    HereIs(t, cur, p);
    Joined(t, cur, [p], ps, WrongHere(t, cur, p), LostHere(t, cur, p), errors, lost);
  }

  ghost predicate Fine(t: Table, cur: Symbol, env: Scopes<Symbol>, e: Expr)
    requires Tree(t) && cur in t
  {
    Reported(t, cur, Places(env, e), Check(t, cur, env, e).errors, Check(t, cur, env, e).lost)
  }

  /**
    Whatever the expression, the errors reported are those of its places, each once; and a class that is not there is
    looked up exactly if one of them does.
  */
  lemma {:induction false} ErrorsAreOfPlaces(t: Table, cur: Symbol, env: Scopes<Symbol>, e: Expr)
    requires Tree(t) && cur in t
    ensures Check(t, cur, env, e).errors == Total(t, cur, Places(env, e))
    ensures Check(t, cur, env, e).lost <==> AnyLost(t, cur, Places(env, e))
    decreases e, 2
  {
    hide Tree, Check, Places, Total, AnyLost;
    match e
    case Assign(_, _) => AssignPlaces(t, cur, env, e);
    case Cond(_, _, _) => CondPlaces(t, cur, env, e);
    case Loop(_, _) => LoopPlaces(t, cur, env, e);
    case Case(_, _) => CasePlaces(t, cur, env, e);
    case Block(_) => BlockExprPlaces(t, cur, env, e);
    case Let(_, _, _, _) => LetPlaces(t, cur, env, e);
    case Arith(_, _, _) => TwoPlaces(t, cur, env, e);
    case Compare(_, _, _) => TwoPlaces(t, cur, env, e);
    case Equal(_, _) => TwoPlaces(t, cur, env, e);
    case Neg(_) => OnePlace(t, cur, env, e);
    case Not(_) => OnePlace(t, cur, env, e);
    case IsVoid(_) => OnePlace(t, cur, env, e);
    case _ => AtomPlace(t, cur, env, e);
  }

  lemma AtomPlace(t: Table, cur: Symbol, env: Scopes<Symbol>, e: Expr)
    requires Tree(t) && cur in t
    requires e.IntConst? || e.BoolConst? || e.StrConst? || e.New? || e.NoExpr? || e.Var?
    ensures Fine(t, cur, env, e)
  {
    hide Tree, Lookup;
    HereAndInside(t, cur, env, e, [], 0, false);
  }

  lemma {:induction false} AssignPlaces(t: Table, cur: Symbol, env: Scopes<Symbol>, e: Expr)
    requires Tree(t) && cur in t && e.Assign?
    ensures Fine(t, cur, env, e)
    decreases e, 1
  {
    hide Tree, Total, AnyLost, Lookup, Inherits, Stores, Strays;
    ErrorsAreOfPlaces(t, cur, env, e.value);
    var v := Check(t, cur, env, e.value);
    if Lookup(env, e.name) != None { InheritsSays(t, cur, Lookup(env, e.name).value, v.typ); }
    HereAndInside(t, cur, env, e, Places(env, e.value), v.errors, v.lost);
  }

  lemma {:induction false} OnePlace(t: Table, cur: Symbol, env: Scopes<Symbol>, e: Expr)
    requires Tree(t) && cur in t && (e.Neg? || e.Not? || e.IsVoid?)
    ensures Fine(t, cur, env, e)
    decreases e, 1
  {
    hide Tree, Total, AnyLost;
    ErrorsAreOfPlaces(t, cur, env, e.operand);
    var v := Check(t, cur, env, e.operand);
    HereAndInside(t, cur, env, e, Places(env, e.operand), v.errors, v.lost);
  }

  lemma {:induction false} TwoPlaces(t: Table, cur: Symbol, env: Scopes<Symbol>, e: Expr)
    requires Tree(t) && cur in t && (e.Arith? || e.Compare? || e.Equal?)
    ensures Fine(t, cur, env, e)
    decreases e, 1
  {
    hide Tree, Total, AnyLost;
    ErrorsAreOfPlaces(t, cur, env, e.left);
    ErrorsAreOfPlaces(t, cur, env, e.right);
    var l, r := Check(t, cur, env, e.left), Check(t, cur, env, e.right);
    Joined(t, cur, Places(env, e.left), Places(env, e.right), l.errors, l.lost, r.errors, r.lost);
    HereAndInside(t, cur, env, e, Places(env, e.left) + Places(env, e.right), l.errors + r.errors, l.lost || r.lost);
  }

  lemma {:induction false} LoopPlaces(t: Table, cur: Symbol, env: Scopes<Symbol>, e: Expr)
    requires Tree(t) && cur in t && e.Loop?
    ensures Fine(t, cur, env, e)
    decreases e, 1
  {
    hide Tree, Total, AnyLost;
    ErrorsAreOfPlaces(t, cur, env, e.pred);
    ErrorsAreOfPlaces(t, cur, env, e.body);
    var p, b := Check(t, cur, env, e.pred), Check(t, cur, env, e.body);
    Joined(t, cur, Places(env, e.pred), Places(env, e.body), p.errors, p.lost, b.errors, b.lost);
    HereAndInside(t, cur, env, e, Places(env, e.pred) + Places(env, e.body), p.errors + b.errors, p.lost || b.lost);
  }

  lemma {:induction false} CondPlaces(t: Table, cur: Symbol, env: Scopes<Symbol>, e: Expr)
    requires Tree(t) && cur in t && e.Cond?
    ensures Fine(t, cur, env, e)
    decreases e, 1
  {
    hide Tree, Total, AnyLost, Known, CommonAncestor;
    ErrorsAreOfPlaces(t, cur, env, e.pred);
    ErrorsAreOfPlaces(t, cur, env, e.thenExp);
    ErrorsAreOfPlaces(t, cur, env, e.elseExp);
    var p, a, b := Check(t, cur, env, e.pred), Check(t, cur, env, e.thenExp), Check(t, cur, env, e.elseExp);
    var ps, qs := Places(env, e.pred) + Places(env, e.thenExp), Places(env, e.elseExp);
    Joined(t, cur, Places(env, e.pred), Places(env, e.thenExp), p.errors, p.lost, a.errors, a.lost);
    Joined(t, cur, ps, qs, p.errors + a.errors, p.lost || a.lost, b.errors, b.lost);
    HereAndInside(t, cur, env, e, ps + qs, p.errors + a.errors + b.errors, p.lost || a.lost || b.lost);
  }

  lemma {:induction false} LetPlaces(t: Table, cur: Symbol, env: Scopes<Symbol>, e: Expr)
    requires Tree(t) && cur in t && e.Let?
    ensures Fine(t, cur, env, e)
    decreases e, 1
  {
    hide Tree, Total, AnyLost, Inherits, Stores, Strays;
    var inner := env + [map[e.id := e.declared]];
    ErrorsAreOfPlaces(t, cur, inner, e.init);
    ErrorsAreOfPlaces(t, cur, inner, e.body);
    var i, b := Check(t, cur, inner, e.init), Check(t, cur, inner, e.body);
    InheritsSays(t, cur, e.declared, i.typ);
    Joined(t, cur, Places(inner, e.init), Places(inner, e.body), i.errors, i.lost, b.errors, b.lost);
    HereAndInside(t, cur, env, e, Places(inner, e.init) + Places(inner, e.body), i.errors + b.errors, i.lost || b.lost);
  }

  lemma {:induction false} CasePlaces(t: Table, cur: Symbol, env: Scopes<Symbol>, e: Expr)
    requires Tree(t) && cur in t && e.Case?
    ensures Fine(t, cur, env, e)
    decreases e, 1
  {
    hide Tree, Total, AnyLost, AncestorOfAll, CheckBranches, BranchTypes, Decls, Pairs, SamePairs, Known;
    ErrorsAreOfPlaces(t, cur, env, e.scrutinee);
    OfBranches(t, cur, env, e.branches);
    var s, bs := Check(t, cur, env, e.scrutinee), CheckBranches(t, cur, env, e.branches);
    BranchTypesAre(t, cur, env, e.branches);
    AncestorsFound(t, cur, bs.types);
    PairsAreCounted(Decls(e.branches));
    Joined(t, cur, Places(env, e.scrutinee), BranchPlaces(env, e.branches), s.errors, s.lost, bs.errors, bs.lost);
    HereAndInside(t, cur, env, e, Places(env, e.scrutinee) + BranchPlaces(env, e.branches),
                  s.errors + bs.errors, s.lost || bs.lost);
  }

  lemma {:induction false} OfBranches(t: Table, cur: Symbol, env: Scopes<Symbol>, bs: Branches)
    requires Tree(t) && cur in t
    ensures var r := CheckBranches(t, cur, env, bs); Reported(t, cur, BranchPlaces(env, bs), r.errors, r.lost)
    decreases bs, 0
  {
    hide Tree, Total, AnyLost, Check, Places;
    var inner, e := env + [map[bs.branch.name := bs.branch.declared]], bs.branch.body;
    ErrorsAreOfPlaces(t, cur, inner, e);
    if bs.And? {
      OfBranches(t, cur, env, bs.others);
      var c, r := Check(t, cur, inner, e), CheckBranches(t, cur, env, bs.others);
      Joined(t, cur, Places(inner, e), BranchPlaces(env, bs.others), c.errors, c.lost, r.errors, r.lost);
    } else {
      assert Places(inner, e) + [] == Places(inner, e);
    }
  }

  lemma {:induction false} BlockExprPlaces(t: Table, cur: Symbol, env: Scopes<Symbol>, e: Expr)
    requires Tree(t) && cur in t && e.Block?
    ensures Fine(t, cur, env, e)
    decreases e, 1
  {
    hide Tree, Total, AnyLost, CheckBlock, BlockPlaces;
    OfBlock(t, cur, env, e.exprs);
    var r := CheckBlock(t, cur, env, e.exprs);
    HereAndInside(t, cur, env, e, BlockPlaces(env, e.exprs), r.errors, r.lost);
  }

  lemma {:induction false} OfBlock(t: Table, cur: Symbol, env: Scopes<Symbol>, es: Exprs)
    requires Tree(t) && cur in t
    ensures var r := CheckBlock(t, cur, env, es); Reported(t, cur, BlockPlaces(env, es), r.errors, r.lost)
    decreases es, 0
  {
    hide Tree, Total, AnyLost, Check, Places;
    match es
    case One(e) => ErrorsAreOfPlaces(t, cur, env, e);
    case More(e, rest) =>
      ErrorsAreOfPlaces(t, cur, env, e);
      OfBlock(t, cur, env, rest);
      var c, r := Check(t, cur, env, e), CheckBlock(t, cur, env, rest);
      Joined(t, cur, Places(env, e), BlockPlaces(env, rest), c.errors, c.lost, r.errors, r.lost);
  }

  // ---------------------------------------------------------------- the type computed

  /** The type of e, right or wrong, from those of its parts: where an error is made it is often Object. */
  ghost predicate Computed(t: Table, cur: Symbol, env: Scopes<Symbol>, e: Expr, typ: Symbol)
    requires Tree(t) && cur in t
  {
    var wrong := WrongHere(t, cur, Place(env, e)) > 0;
    match e
    case Assign(_, v) => typ == if wrong then Object else TypeOf(t, cur, env, v)
    case Arith(_, _, _) => typ == if wrong then Object else Int
    case Neg(_) => typ == if wrong then Object else Int
    case Compare(_, _, _) => typ == if wrong then Object else Bool
    case Equal(_, _) => typ == if wrong then Object else Bool
    case Not(_) => typ == if wrong then Object else Bool
    case Var(x) => typ == if wrong then Object else if x == "self" then SelfType else Lookup(env, x).value
    case New(c) => typ == c
    case Loop(_, _) => typ == Object
    case IsVoid(_) => typ == Bool
    case IntConst(_) => typ == Int
    case BoolConst(_) => typ == Bool
    case StrConst(_) => typ == Str
    case NoExpr => typ == NoType
    case Block(es) => typ == TypeOf(t, cur, env, LastOf(es))
    case Let(x, d, _, b) => typ == TypeOf(t, cur, env + [map[x := d]], b)
    case Cond(_, a, b) =>
      var x, y := TypeOf(t, cur, env, a), TypeOf(t, cur, env, b);
      (y == NoType ==> typ == x) && (Known(t, x) && Known(t, y) ==> Least(t, cur, [x, y], typ))
    case Case(_, bs) =>
      var types := BranchTypes(t, cur, env, bs);
      && (|types| == 1 ==> typ == types[0])
      && (|types| > 1 && (forall a <- types :: Known(t, a)) ==> Least(t, cur, types, typ))
  }

  function LastOf(es: Exprs): Expr {
    match es
    case One(e) => e
    case More(_, rest) => LastOf(rest)
  }

  lemma {:induction false} TypeComputed(t: Table, cur: Symbol, env: Scopes<Symbol>, e: Expr)
    requires Tree(t) && cur in t
    ensures Computed(t, cur, env, e, TypeOf(t, cur, env, e))
  {
    hide *;
    match e
    case Assign(_, _) => AssignTypeComputed(t, cur, env, e);
    case Cond(_, _, _) => CondTypeComputed(t, cur, env, e);
    case Case(_, _) => CaseTypeComputed(t, cur, env, e);
    case _ => OtherTypeComputed(t, cur, env, e);
  }

  lemma {:induction false} AssignTypeComputed(t: Table, cur: Symbol, env: Scopes<Symbol>, e: Expr)
    requires Tree(t) && cur in t && e.Assign?
    ensures Computed(t, cur, env, e, TypeOf(t, cur, env, e))
  {
    hide Tree, Lookup, Inherits, Stores, Known;
    if Lookup(env, e.name) != None { InheritsSays(t, cur, Lookup(env, e.name).value, TypeOf(t, cur, env, e.value)); }
  }

  lemma {:induction false} CondTypeComputed(t: Table, cur: Symbol, env: Scopes<Symbol>, e: Expr)
    requires Tree(t) && cur in t && e.Cond?
    ensures Computed(t, cur, env, e, TypeOf(t, cur, env, e))
  {
    hide Tree, CommonAncestor, Known, Least;
    var x, y := TypeOf(t, cur, env, e.thenExp), TypeOf(t, cur, env, e.elseExp);
    NoTypeUnknown(t);
    if Known(t, x) && Known(t, y) { CommonIsLeast(t, cur, x, y); }
  }

  lemma {:induction false} OtherTypeComputed(t: Table, cur: Symbol, env: Scopes<Symbol>, e: Expr)
    requires Tree(t) && cur in t && !e.Assign? && !e.Cond? && !e.Case?
    ensures Computed(t, cur, env, e, TypeOf(t, cur, env, e))
  {
    hide Tree, Lookup, CheckBlock, Known, Pairs, Least;
    if e.Block? { LastTyped(t, cur, env, e.exprs); }
  }

  lemma {:induction false} LastTyped(t: Table, cur: Symbol, env: Scopes<Symbol>, es: Exprs)
    requires Tree(t) && cur in t
    ensures CheckBlock(t, cur, env, es).typ == TypeOf(t, cur, env, LastOf(es))
    decreases es
  {
    hide Tree, Check;
    if es.More? { LastTyped(t, cur, env, es.others); }
  }

  lemma {:induction false} CaseTypeComputed(t: Table, cur: Symbol, env: Scopes<Symbol>, e: Expr)
    requires Tree(t) && cur in t && e.Case?
    ensures Computed(t, cur, env, e, TypeOf(t, cur, env, e))
  {
    hide Tree, CheckBranches, BranchTypes, AncestorOfAll, Least, Known, WrongHere;
    var types := BranchTypes(t, cur, env, e.branches);
    BranchTypesAre(t, cur, env, e.branches);
    AncestorsFound(t, cur, types);
    if |types| > 1 && forall a <- types :: Known(t, a) { JoinAllLeast(t, cur, types); }
  }
}
