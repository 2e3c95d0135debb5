/**
  The checker decides the typing rules. The rules are those of the COOL manual for the expressions modelled, stated
  as a relation; an `if` or a `case` of several branches gets the least class its branches conform to. They also judge
  declared types that are no class, as the checker does: nothing fits into such a type but itself.
*/
module CoolTyping {
  import opened Common
  import opened CoolClasses
  import opened CoolExpr
  import opened CoolSound
  import opened CoolPreservation

  /** Class c is above all the types, and below every class that is. */
  ghost predicate Least(t: Table, cur: Symbol, types: seq<Symbol>, c: Symbol)
    requires Tree(t) && cur in t
  {
    && c in t && (forall a <- types :: Known(t, a) && Conforms(t, cur, a, c))
    && forall u <- t :: (forall a <- types :: Known(t, a) && Conforms(t, cur, a, u)) ==> Below(t, c, u)
  }

  predicate AllDifferent(xs: seq<Symbol>) {
    forall i, j | 0 <= i < j < |xs| :: xs[i] != xs[j]
  }

  /** A value of type a may be stored where `declared` is declared, whether that is a class or not. */
  predicate FitsInto(t: Table, cur: Symbol, a: Symbol, declared: Symbol)
    requires Tree(t) && cur in t
  {
    if declared == SelfType then a == SelfType
    else if Known(t, a) then Conforms(t, cur, a, declared)
    else a == declared
  }

  /** e has type typ in the scopes env, in class cur. */
  ghost predicate Typed(t: Table, cur: Symbol, env: Scopes<Symbol>, e: Expr, typ: Symbol)
    requires Tree(t) && cur in t
    decreases e, 1
  {
    match e
    case Assign(_, _) => AssignTyped(t, cur, env, e, typ)
    case Cond(_, _, _) => CondTyped(t, cur, env, e, typ)
    case Loop(p, b) => Typed(t, cur, env, p, Bool) && HasOneType(t, cur, env, b) && typ == Object
    case Case(_, _) => CaseTyped(t, cur, env, e, typ)
    case Block(es) => BlockTyped(t, cur, env, es, typ)
    case Let(_, _, _, _) => LetTyped(t, cur, env, e, typ)
    case Arith(_, a, b) => Typed(t, cur, env, a, Int) && Typed(t, cur, env, b, Int) && typ == Int
    case Neg(a) => Typed(t, cur, env, a, Int) && typ == Int
    case Compare(_, a, b) => Typed(t, cur, env, a, Int) && Typed(t, cur, env, b, Int) && typ == Bool
    case Equal(_, _) => EqualTyped(t, cur, env, e) && typ == Bool
    case Not(a) => Typed(t, cur, env, a, Bool) && typ == Bool
    case IntConst(_) => typ == Int
    case BoolConst(_) => typ == Bool
    case StrConst(_) => typ == Str
    case New(c) => Known(t, c) && typ == c
    case IsVoid(a) => HasOneType(t, cur, env, a) && typ == Bool
    case NoExpr => false
    case Var(x) => if x == "self" then typ == SelfType else Lookup(env, x) == Some(typ)
  }

  ghost predicate HasOneType(t: Table, cur: Symbol, env: Scopes<Symbol>, e: Expr)
    requires Tree(t) && cur in t
    decreases e, 2
  {
    exists a: Symbol :: Typed(t, cur, env, e, a)
  }

  ghost predicate AssignTyped(t: Table, cur: Symbol, env: Scopes<Symbol>, e: Expr, typ: Symbol)
    requires Tree(t) && cur in t && e.Assign?
    decreases e, 0
  {
    && Typed(t, cur, env, e.value, typ) && Lookup(env, e.name) != None
    && FitsInto(t, cur, typ, Lookup(env, e.name).value)
  }

  ghost predicate CondTyped(t: Table, cur: Symbol, env: Scopes<Symbol>, e: Expr, typ: Symbol)
    requires Tree(t) && cur in t && e.Cond?
    decreases e, 0
  {
    && Typed(t, cur, env, e.pred, Bool)
    && exists x: Symbol, y: Symbol ::
         Typed(t, cur, env, e.thenExp, x) && Typed(t, cur, env, e.elseExp, y) && Least(t, cur, [x, y], typ)
  }

  /** Int, Bool and String are compared with their like only. */
  predicate Comparable(x: Symbol, y: Symbol) {
    Leaf(x) || Leaf(y) ==> x == y
  }

  ghost predicate EqualTyped(t: Table, cur: Symbol, env: Scopes<Symbol>, e: Expr)
    requires Tree(t) && cur in t && e.Equal?
    decreases e, 0
  {
    exists x: Symbol, y: Symbol ::
      Typed(t, cur, env, e.left, x) && Typed(t, cur, env, e.right, y) && Comparable(x, y)
  }

  /** The initialiser is typed outside the scope of the name. */
  ghost predicate LetTyped(t: Table, cur: Symbol, env: Scopes<Symbol>, e: Expr, typ: Symbol)
    requires Tree(t) && cur in t && e.Let?
    decreases e, 0
  {
    && e.id != "self"
    && (e.init != NoExpr ==>
          exists a: Symbol :: Typed(t, cur, env, e.init, a) && FitsInto(t, cur, a, e.declared))
    && Typed(t, cur, env + [map[e.id := e.declared]], e.body, typ)
  }

  ghost predicate CaseTyped(t: Table, cur: Symbol, env: Scopes<Symbol>, e: Expr, typ: Symbol)
    requires Tree(t) && cur in t && e.Case?
    decreases e, 0
  {
    && HasOneType(t, cur, env, e.scrutinee) && AllDifferent(Decls(e.branches))
    && exists types: seq<Symbol> ::
         BranchesTyped(t, cur, env, e.branches, types)
         && if |types| == 1 then typ == types[0] else Least(t, cur, types, typ)
  }

  ghost predicate BlockTyped(t: Table, cur: Symbol, env: Scopes<Symbol>, es: Exprs, typ: Symbol)
    requires Tree(t) && cur in t
    decreases es, 0
  {
    match es
    case One(e) => Typed(t, cur, env, e, typ)
    case More(e, rest) => HasOneType(t, cur, env, e) && BlockTyped(t, cur, env, rest, typ)
  }

  ghost predicate BranchesTyped(t: Table, cur: Symbol, env: Scopes<Symbol>, bs: Branches, types: seq<Symbol>)
    requires Tree(t) && cur in t
    decreases bs, 0
  {
    && types != [] && Typed(t, cur, env + [map[bs.branch.name := bs.branch.declared]], bs.branch.body, types[0])
    && (if bs.And? then BranchesTyped(t, cur, env, bs.others, types[1..]) else |types| == 1)
  }

  // ---------------------------------------------------------------- least classes

  lemma LeastIsUnique(t: Table, cur: Symbol, types: seq<Symbol>, c: Symbol, d: Symbol)
    requires Tree(t) && cur in t && Least(t, cur, types, c) && Least(t, cur, types, d)
    ensures c == d
  {
    BelowAntisymmetric(t, c, d);
  }

  lemma CommonIsLeast(t: Table, cur: Symbol, x: Symbol, y: Symbol)
    requires Tree(t) && cur in t && Known(t, x) && Known(t, y)
    ensures Least(t, cur, [x, y], CommonAncestor(t, cur, x, y))
  {
    hide CommonAncestor, Below, Tree;
    var c := CommonAncestor(t, cur, x, y);
    forall u | u in t
      ensures Below(t, c, u) <==> Conforms(t, cur, x, u) && Conforms(t, cur, y, u)
    {
      NotSelf(t, u);
      NotSelf(t, c);
      CommonAncestorIsLeast(t, cur, x, y, u);
    }
    BelowSelf(t, c);
  }

  lemma NotSelf(t: Table, u: Symbol)
    requires Tree(t) && u in t
    ensures u != SelfType
  {
  }

  lemma {:induction false} BelowSelf(t: Table, c: Symbol)
    requires Tree(t) && c in t
    ensures Below(t, c, c)
  {
  }

  lemma {:induction false} JoinAllLeast(t: Table, cur: Symbol, types: seq<Symbol>)
    requires Tree(t) && cur in t && |types| > 1 && forall c <- types :: Known(t, c)
    ensures Least(t, cur, types, JoinAll(t, cur, types))
  {
    hide JoinAll, Below, Tree;
    var c := JoinAll(t, cur, types);
    forall u | u in t
      ensures Below(t, c, u) <==> forall a <- types :: Conforms(t, cur, a, u)
    {
      NotSelf(t, u);
      NotSelf(t, c);
      JoinAllIsLeast(t, cur, types, u);
    }
    BelowSelf(t, c);
  }

  lemma {:induction false} CountZero(xs: seq<Symbol>, x: Symbol)
    ensures CountOf(xs, x) == 0 <==> x !in xs
    decreases |xs|
  {
    if xs != [] {
      CountZero(xs[1..], x);
      assert xs == [xs[0]] + xs[1..];
    }
  }

  lemma {:induction false} PairsZero(xs: seq<Symbol>)
    ensures SamePairs(xs) == 0 <==> AllDifferent(xs)
    decreases |xs|
  {
    if xs != [] {
      var rest := xs[1..];
      PairsZero(rest);
      CountZero(rest, xs[0]);
      hide CountOf, SamePairs;
      assert forall i | 0 <= i < |rest| :: rest[i] == xs[i + 1];
      if AllDifferent(xs) {
        assert forall i, j | 0 <= i < j < |rest| :: rest[i] == xs[i + 1] && rest[j] == xs[j + 1];
        forall i | 0 <= i < |rest|
          ensures rest[i] != xs[0]
        {
          assert xs[0] != xs[i + 1];
        }
      }
      if AllDifferent(rest) && xs[0] !in rest {
        forall i, j | 0 <= i < j < |xs|
          ensures xs[i] != xs[j]
        {
          assert xs[j] == rest[j - 1];
          if i > 0 { assert xs[i] == rest[i - 1]; }
        }
      }
    }
  }

  // ---------------------------------------------------------------- the theorem

  /** A type a program can spell, whether there is such a class or not. */
  predicate Spelt(typ: Symbol) {
    typ != NoType && typ != NoClass
  }

  ghost predicate EnvSpelt(env: Scopes<Symbol>) {
    forall x :: Lookup(env, x) != None ==> Spelt(Lookup(env, x).value)
  }

  predicate Spells(e: Expr) {
    match e
    case Assign(_, a) => Spells(a)
    case Cond(a, b, c) => Spells(a) && Spells(b) && Spells(c)
    case Loop(a, b) => Spells(a) && Spells(b)
    case Case(a, bs) => Spells(a) && SpellsBranches(bs)
    case Block(es) => SpellsBlock(es)
    case Let(_, declared, init, body) => Spelt(declared) && Spells(init) && Spells(body)
    case Arith(_, a, b) => Spells(a) && Spells(b)
    case Neg(a) => Spells(a)
    case Compare(_, a, b) => Spells(a) && Spells(b)
    case Equal(a, b) => Spells(a) && Spells(b)
    case Not(a) => Spells(a)
    case IsVoid(a) => Spells(a)
    case New(cls) => Spelt(cls)
    case _ => true
  }

  predicate SpellsBlock(es: Exprs) {
    match es
    case One(e) => Spells(e)
    case More(e, rest) => Spells(e) && SpellsBlock(rest)
  }

  predicate SpellsBranches(bs: Branches) {
    && Spelt(bs.branch.declared) && Spells(bs.branch.body)
    && (bs.And? ==> SpellsBranches(bs.others))
  }

  /** What the checker is asked on: types that can be written, the grammar's shape, initialisers not naming their let. */
  ghost predicate Asked(t: Table, env: Scopes<Symbol>, e: Expr) {
    EnvSpelt(env) && Spells(e) && Proper(e) && Scoped(env, e)
  }

  /** No error, no look-up of a class that is not there, and the type. */
  ghost predicate Agrees(t: Table, cur: Symbol, env: Scopes<Symbol>, e: Expr, typ: Symbol)
    requires Tree(t) && cur in t
  {
    Typed(t, cur, env, e, typ) <==> Check(t, cur, env, e) == Checked(typ, 0, false)
  }

  lemma PushedSpelt(env: Scopes<Symbol>, x: string, typ: Symbol)
    requires EnvSpelt(env) && Spelt(typ)
    ensures EnvSpelt(env + [map[x := typ]])
  {
    forall y
      ensures var l := Lookup(env + [map[x := typ]], y); l != None ==> Spelt(l.value)
    {
      LookupPushed(env, x, typ, y);
    }
  }

  lemma AncestorSpelt(t: Table, cur: Symbol, a: Symbol, b: Symbol)
    requires Tree(t) && cur in t
    ensures Spelt(Ancestor(t, cur, a, b).0)
  {
    NoTypeUnknown(t);
  }

  lemma {:induction false} AncestorsSpelt(t: Table, cur: Symbol, types: seq<Symbol>)
    requires Tree(t) && cur in t && types != [] && forall a <- types :: Spelt(a)
    ensures Spelt(AncestorOfAll(t, cur, types).0)
  {
    var n := |types| - 1;
    if n > 0 { AncestorSpelt(t, cur, AncestorOfAll(t, cur, types[..n]).0, types[n]); }
    hide Ancestor, Tree;
  }

  /** What the checker computes for an expression is a type that could be written, errors or not. */
  lemma {:induction false} CheckSpelt(t: Table, cur: Symbol, env: Scopes<Symbol>, e: Expr)
    requires Tree(t) && cur in t && EnvSpelt(env) && Spells(e) && Proper(e)
    ensures Spelt(Check(t, cur, env, e).typ)
    decreases e
  {
    hide Tree, EnvSpelt, Lookup, Ancestor, AncestorOfAll, Inherits;
    match e
    case Assign(x, value) => CheckSpelt(t, cur, env, value);
    case Cond(p, a, b) =>
      CheckSpelt(t, cur, env, a);
      AncestorSpelt(t, cur, Check(t, cur, env, a).typ, Check(t, cur, env, b).typ);
    case Case(s, bs) =>
      BranchesSpelt(t, cur, env, bs);
      AncestorsSpelt(t, cur, CheckBranches(t, cur, env, bs).types);
    case Block(es) => BlockSpelt(t, cur, env, es);
    case Let(x, declared, init, body) =>
      PushedSpelt(env, x, declared);
      CheckSpelt(t, cur, env + [map[x := declared]], body);
    case Var(x) => VarSpelt(env, x);
    case _ =>
  }

  lemma VarSpelt(env: Scopes<Symbol>, x: string)
    requires EnvSpelt(env)
    ensures Lookup(env, x) != None ==> Spelt(Lookup(env, x).value)
  {
  }

  lemma {:induction false} BlockSpelt(t: Table, cur: Symbol, env: Scopes<Symbol>, es: Exprs)
    requires Tree(t) && cur in t && EnvSpelt(env) && SpellsBlock(es) && ProperBlock(es)
    ensures Spelt(CheckBlock(t, cur, env, es).typ)
    decreases es
  {
    hide Tree, EnvSpelt;
    match es
    case One(e) => CheckSpelt(t, cur, env, e);
    case More(e, rest) => BlockSpelt(t, cur, env, rest);
  }

  lemma {:induction false} BranchesSpelt(t: Table, cur: Symbol, env: Scopes<Symbol>, bs: Branches)
    requires Tree(t) && cur in t && EnvSpelt(env) && SpellsBranches(bs) && ProperBranches(bs)
    ensures forall a <- CheckBranches(t, cur, env, bs).types :: Spelt(a)
    decreases bs
  {
    var b := bs.branch;
    PushedSpelt(env, b.name, b.declared);
    hide Tree, EnvSpelt;
    CheckSpelt(t, cur, env + [map[b.name := b.declared]], b.body);
    if bs.And? { BranchesSpelt(t, cur, env, bs.others); }
  }

  ghost predicate AgreesAll(t: Table, cur: Symbol, env: Scopes<Symbol>, e: Expr)
    requires Tree(t) && cur in t
  {
    forall typ: Symbol :: Agrees(t, cur, env, e, typ)
  }

  lemma {:induction false} Sub(t: Table, cur: Symbol, env: Scopes<Symbol>, e: Expr)
    requires Tree(t) && cur in t && Asked(t, env, e)
    ensures AgreesAll(t, cur, env, e)
    ensures HasOneType(t, cur, env, e) <==> Check(t, cur, env, e).errors == 0 && !Check(t, cur, env, e).lost
    decreases e, 2
  {
    hide Typed, Check, Asked, Tree;
    forall typ: Symbol
      ensures Agrees(t, cur, env, e, typ)
    {
      Decided(t, cur, env, e, typ);
    }
    assert Agrees(t, cur, env, e, Check(t, cur, env, e).typ);
    if a: Symbol :| Typed(t, cur, env, e, a) { assert Agrees(t, cur, env, e, a); }
  }

  lemma {:induction false} Decided(t: Table, cur: Symbol, env: Scopes<Symbol>, e: Expr, typ: Symbol)
    requires Tree(t) && cur in t && Asked(t, env, e)
    ensures Agrees(t, cur, env, e, typ)
    decreases e, 1
  {
    hide *;
    if e.Arith? || e.Compare? {
      NumbersDecided(t, cur, env, e, typ);
    } else if e.Neg? || e.Not? || e.IsVoid? || e.Loop? {
      TestsDecided(t, cur, env, e, typ);
    } else if e.Equal? {
      EqualDecided(t, cur, env, e, typ);
    } else if e.Assign? {
      AssignDecided(t, cur, env, e, typ);
    } else if e.Cond? {
      CondDecided(t, cur, env, e, typ);
    } else if e.Let? {
      LetDecided(t, cur, env, e, typ);
    } else if e.Case? {
      CaseDecided(t, cur, env, e, typ);
    } else if e.Block? {
      BlockExprDecided(t, cur, env, e, typ);
    } else {
      AtomDecided(t, cur, env, e, typ);
    }
  }

  lemma {:induction false} BlockExprDecided(t: Table, cur: Symbol, env: Scopes<Symbol>, e: Expr, typ: Symbol)
    requires Tree(t) && cur in t && Asked(t, env, e) && e.Block?
    ensures Agrees(t, cur, env, e, typ)
    decreases e, 0
  {
    hide Tree, EnvSpelt, Lookup, Typed, Check, Asked, BlockTyped, CheckBlock;
    BlockUnfolds(t, cur, env, e, typ);
    BlockDecided(t, cur, env, e.exprs, typ);
  }

  lemma {:induction false} BlockUnfolds(t: Table, cur: Symbol, env: Scopes<Symbol>, e: Expr, typ: Symbol)
    requires Tree(t) && cur in t && Asked(t, env, e) && e.Block?
    ensures Typed(t, cur, env, e, typ) <==> BlockTyped(t, cur, env, e.exprs, typ)
    ensures Check(t, cur, env, e) == CheckBlock(t, cur, env, e.exprs)
    ensures EnvSpelt(env) && SpellsBlock(e.exprs) && ProperBlock(e.exprs) && ScopedBlock(env, e.exprs)
  {
    hide Tree, EnvSpelt, Lookup, BlockTyped, CheckBlock;
  }

  lemma AtomDecided(t: Table, cur: Symbol, env: Scopes<Symbol>, e: Expr, typ: Symbol)
    requires Tree(t) && cur in t && Asked(t, env, e)
    requires e.IntConst? || e.BoolConst? || e.StrConst? || e.New? || e.NoExpr? || e.Var?
    ensures Agrees(t, cur, env, e, typ)
  {
    hide Tree, EnvSpelt, Lookup;
  }

  lemma {:induction false} NumbersDecided(t: Table, cur: Symbol, env: Scopes<Symbol>, e: Expr, typ: Symbol)
    requires Tree(t) && cur in t && Asked(t, env, e) && (e.Arith? || e.Compare?)
    ensures Agrees(t, cur, env, e, typ)
    decreases e, 0
  {
    hide Tree, EnvSpelt, Lookup;
    Sub(t, cur, env, e.left);
    Sub(t, cur, env, e.right);
    assert Agrees(t, cur, env, e.left, Int) && Agrees(t, cur, env, e.right, Int);
  }

  lemma {:induction false} TestsDecided(t: Table, cur: Symbol, env: Scopes<Symbol>, e: Expr, typ: Symbol)
    requires Tree(t) && cur in t && Asked(t, env, e) && (e.Neg? || e.Not? || e.IsVoid? || e.Loop?)
    ensures Agrees(t, cur, env, e, typ)
    decreases e, 0
  {
    hide Tree, EnvSpelt, Lookup;
    if e.Loop? {
      Sub(t, cur, env, e.pred);
      Sub(t, cur, env, e.body);
      assert Agrees(t, cur, env, e.pred, Bool);
    } else {
      Sub(t, cur, env, e.operand);
      assert Agrees(t, cur, env, e.operand, Bool) && Agrees(t, cur, env, e.operand, Int);
    }
  }

  lemma {:induction false} EqualUnfolds(t: Table, cur: Symbol, env: Scopes<Symbol>, e: Expr, typ: Symbol)
    requires Tree(t) && cur in t && Asked(t, env, e) && e.Equal?
    ensures Typed(t, cur, env, e, typ) <==> typ == Bool && EqualTyped(t, cur, env, e)
    ensures var l, r := Check(t, cur, env, e.left), Check(t, cur, env, e.right);
            Check(t, cur, env, e) == Both(l, r, Basics(l.typ, r.typ) ==> l.typ == r.typ, Bool)
    ensures Asked(t, env, e.left) && Asked(t, env, e.right)
  {
    hide Tree, EnvSpelt, Lookup, Leaf, Both, EqualTyped;
  }

  lemma {:induction false} EqualDecided(t: Table, cur: Symbol, env: Scopes<Symbol>, e: Expr, typ: Symbol)
    requires Tree(t) && cur in t && Asked(t, env, e) && e.Equal?
    ensures Agrees(t, cur, env, e, typ)
    decreases e, 0
  {
    hide Tree, EnvSpelt, Lookup, Typed, Check, Asked, Both, Comparable, Basics;
    EqualUnfolds(t, cur, env, e, typ);
    Sub(t, cur, env, e.left);
    Sub(t, cur, env, e.right);
    var l, r := Check(t, cur, env, e.left), Check(t, cur, env, e.right);
    BothIs(l, r, typ);
    assert Agrees(t, cur, env, e.left, l.typ) && Agrees(t, cur, env, e.right, r.typ);
    if EqualTyped(t, cur, env, e) {
      var x: Symbol, y: Symbol :| Typed(t, cur, env, e.left, x) && Typed(t, cur, env, e.right, y)
                                  && Comparable(x, y);
      assert Agrees(t, cur, env, e.left, x) && Agrees(t, cur, env, e.right, y);
    }
  }

  lemma BothIs(l: Checked, r: Checked, typ: Symbol)
    ensures Both(l, r, Basics(l.typ, r.typ) ==> l.typ == r.typ, Bool) == Checked(typ, 0, false)
            <==> l == Checked(l.typ, 0, false) && r == Checked(r.typ, 0, false) && Comparable(l.typ, r.typ) && typ == Bool
  {
  }

  lemma {:induction false} AssignUnfolds(t: Table, cur: Symbol, env: Scopes<Symbol>, e: Expr, typ: Symbol)
    requires Tree(t) && cur in t && Asked(t, env, e) && e.Assign?
    ensures Typed(t, cur, env, e, typ) <==> AssignTyped(t, cur, env, e, typ)
    ensures Check(t, cur, env, e) == AssignRule(t, cur, Lookup(env, e.name), Check(t, cur, env, e.value))
    ensures Asked(t, env, e.value)
  {
    hide Tree, EnvSpelt, Lookup, AssignRule, AssignTyped;
  }

  lemma {:induction false} AssignDecided(t: Table, cur: Symbol, env: Scopes<Symbol>, e: Expr, typ: Symbol)
    requires Tree(t) && cur in t && Asked(t, env, e) && e.Assign?
    ensures Agrees(t, cur, env, e, typ)
    decreases e, 0
  {
    hide Tree, EnvSpelt, Lookup, FitsInto, Inherits, Typed, Check, Asked;
    AssignUnfolds(t, cur, env, e, typ);
    Sub(t, cur, env, e.value);
    var r := Check(t, cur, env, e.value);
    assert Agrees(t, cur, env, e.value, typ) && Agrees(t, cur, env, e.value, r.typ);
    AskedSpelt(t, cur, env, e.value);
    if Lookup(env, e.name) != None { InheritsIs(t, cur, Lookup(env, e.name).value, r.typ); }
  }

  lemma AskedSpelt(t: Table, cur: Symbol, env: Scopes<Symbol>, e: Expr)
    requires Tree(t) && cur in t && Asked(t, env, e)
    ensures Spelt(Check(t, cur, env, e).typ)
  {
    hide Tree, EnvSpelt, Check, Spells, Proper, Scoped;
    CheckSpelt(t, cur, env, e);
  }

  /** CheckInheritance answers yes exactly when the child fits, and then has looked up no missing class. */
  lemma InheritsIs(t: Table, cur: Symbol, ancestor: Symbol, child: Symbol)
    requires Tree(t) && cur in t && Spelt(child)
    ensures Inherits(t, cur, ancestor, child).yes <==> FitsInto(t, cur, child, ancestor)
    ensures FitsInto(t, cur, child, ancestor) ==> !Inherits(t, cur, ancestor, child).lost
  {
    hide Tree, Below;
  }

  lemma {:induction false} CondUnfolds(t: Table, cur: Symbol, env: Scopes<Symbol>, e: Expr, typ: Symbol)
    requires Tree(t) && cur in t && Asked(t, env, e) && e.Cond?
    ensures Typed(t, cur, env, e, typ) <==> CondTyped(t, cur, env, e, typ)
    ensures Check(t, cur, env, e)
            == CondRule(t, cur, Check(t, cur, env, e.pred), Check(t, cur, env, e.thenExp), Check(t, cur, env, e.elseExp))
    ensures Asked(t, env, e.pred) && Asked(t, env, e.thenExp) && Asked(t, env, e.elseExp)
  {
    hide Tree, EnvSpelt, Lookup, CondTyped, CondRule;
  }

  lemma {:induction false} CondDecided(t: Table, cur: Symbol, env: Scopes<Symbol>, e: Expr, typ: Symbol)
    requires Tree(t) && cur in t && Asked(t, env, e) && e.Cond?
    ensures Agrees(t, cur, env, e, typ)
    decreases e, 0
  {
    hide Tree, EnvSpelt, Lookup, Least, Known, CommonAncestor, Typed, Check, Asked, CondRule;
    CondUnfolds(t, cur, env, e, typ);
    Sub(t, cur, env, e.pred);
    Sub(t, cur, env, e.thenExp);
    Sub(t, cur, env, e.elseExp);
    var a, b := Check(t, cur, env, e.thenExp), Check(t, cur, env, e.elseExp);
    assert Agrees(t, cur, env, e.pred, Bool);
    assert Agrees(t, cur, env, e.thenExp, a.typ) && Agrees(t, cur, env, e.elseExp, b.typ);
    AskedSpelt(t, cur, env, e.elseExp);
    CondIs(t, cur, Check(t, cur, env, e.pred), a, b, typ);
    if Known(t, a.typ) && Known(t, b.typ) { CommonIsLeast(t, cur, a.typ, b.typ); }
    if CondTyped(t, cur, env, e, typ) {
      var x: Symbol, y: Symbol :| Typed(t, cur, env, e.thenExp, x) && Typed(t, cur, env, e.elseExp, y)
                                  && Least(t, cur, [x, y], typ);
      assert Agrees(t, cur, env, e.thenExp, x) && Agrees(t, cur, env, e.elseExp, y);
      LeastKnown(t, cur, x, y, typ);
      LeastIsUnique(t, cur, [x, y], typ, CommonAncestor(t, cur, x, y));
    }
  }

  lemma LeastKnown(t: Table, cur: Symbol, x: Symbol, y: Symbol, c: Symbol)
    requires Tree(t) && cur in t && Least(t, cur, [x, y], c)
    ensures Known(t, x) && Known(t, y)
  {
    assert x in [x, y] && y in [x, y];
  }

  lemma CondIs(t: Table, cur: Symbol, p: Checked, a: Checked, b: Checked, typ: Symbol)
    requires Tree(t) && cur in t && Spelt(b.typ)
    ensures CondRule(t, cur, p, a, b) == Checked(typ, 0, false)
            <==> && p == Checked(Bool, 0, false) && a == Checked(a.typ, 0, false) && b == Checked(b.typ, 0, false)
                 && Known(t, a.typ) && Known(t, b.typ) && typ == CommonAncestor(t, cur, a.typ, b.typ)
  {
    hide Tree, CommonAncestor, Known;
  }

  lemma {:induction false} LetUnfolds(t: Table, cur: Symbol, env: Scopes<Symbol>, e: Expr, typ: Symbol)
    requires Tree(t) && cur in t && Asked(t, env, e) && e.Let?
    ensures Typed(t, cur, env, e, typ) <==> LetTyped(t, cur, env, e, typ)
    ensures var inner := env + [map[e.id := e.declared]];
            && Check(t, cur, env, e)
               == LetRule(t, cur, e.id, e.declared, Check(t, cur, env, e.init), Check(t, cur, inner, e.body))
            && Asked(t, inner, e.body)
    ensures e.init != NoExpr ==> Asked(t, env, e.init)
    ensures e.init == NoExpr ==> Check(t, cur, env, e.init) == Checked(NoType, 0, false)
  {
    hide Tree, EnvSpelt, Lookup, Known, LetRule, LetTyped;
    LetDeclared(t, env, e);
    PushedSpelt(env, e.id, e.declared);
    InitChecked(t, cur, env, e.id, e.declared, e.init);
  }

  lemma {:induction false} LetDeclared(t: Table, env: Scopes<Symbol>, e: Expr)
    requires Asked(t, env, e) && e.Let?
    ensures Spelt(e.declared) && (Free(e.init, e.id) ==> Lookup(env, e.id) == Some(e.declared))
  {
    hide EnvKnown, Lookup, Known;
  }

  lemma {:induction false} LetDecided(t: Table, cur: Symbol, env: Scopes<Symbol>, e: Expr, typ: Symbol)
    requires Tree(t) && cur in t && Asked(t, env, e) && e.Let?
    ensures Agrees(t, cur, env, e, typ)
    decreases e, 0
  {
    hide Tree, EnvSpelt, Lookup, FitsInto, Inherits, Typed, Check, Asked;
    var inner := env + [map[e.id := e.declared]];
    LetUnfolds(t, cur, env, e, typ);
    Sub(t, cur, inner, e.body);
    assert Agrees(t, cur, inner, e.body, typ);
    if e.init != NoExpr {
      Sub(t, cur, env, e.init);
      var a := Check(t, cur, env, e.init);
      assert Agrees(t, cur, env, e.init, a.typ);
      AskedSpelt(t, cur, env, e.init);
      InheritsIs(t, cur, e.declared, a.typ);
      if LetTyped(t, cur, env, e, typ) {
        var x: Symbol :| Typed(t, cur, env, e.init, x) && FitsInto(t, cur, x, e.declared);
        assert Agrees(t, cur, env, e.init, x);
      }
    }
  }

  lemma {:induction false} BlockDecided(t: Table, cur: Symbol, env: Scopes<Symbol>, es: Exprs, typ: Symbol)
    requires Tree(t) && cur in t && EnvSpelt(env) && SpellsBlock(es) && ProperBlock(es) && ScopedBlock(env, es)
    ensures BlockTyped(t, cur, env, es, typ) <==> CheckBlock(t, cur, env, es) == Checked(typ, 0, false)
    decreases es, 3
  {
    hide Tree, EnvSpelt, Lookup, Typed, Check;
    match es
    case One(e) =>
      Sub(t, cur, env, e);
      assert Agrees(t, cur, env, e, typ);
    case More(e, rest) =>
      Sub(t, cur, env, e);
      BlockDecided(t, cur, env, rest, typ);
  }

  lemma {:induction false} BranchesDecided(t: Table, cur: Symbol, env: Scopes<Symbol>, bs: Branches, types: seq<Symbol>)
    requires Tree(t) && cur in t && EnvSpelt(env)
    requires SpellsBranches(bs) && ProperBranches(bs) && ScopedBranches(env, bs)
    ensures BranchesTyped(t, cur, env, bs, types)
            <==> CheckBranches(t, cur, env, bs) == CheckedBranches(types, 0, false)
    decreases bs, 3
  {
    var b := bs.branch;
    var inner := env + [map[b.name := b.declared]];
    PushedSpelt(env, b.name, b.declared);
    hide Tree, EnvSpelt, Lookup, Typed, Check;
    Sub(t, cur, inner, b.body);
    var c := CheckBranches(t, cur, env, bs);
    if types != [] {
      assert Agrees(t, cur, inner, b.body, types[0]);
      assert types == [types[0]] + types[1..];
      if bs.And? { BranchesDecided(t, cur, env, bs.others, types[1..]); }
    }
  }

  lemma {:induction false} CaseUnfolds(t: Table, cur: Symbol, env: Scopes<Symbol>, e: Expr, typ: Symbol)
    requires Tree(t) && cur in t && Asked(t, env, e) && e.Case?
    ensures Typed(t, cur, env, e, typ) <==> CaseTyped(t, cur, env, e, typ)
    ensures var s, c := Check(t, cur, env, e.scrutinee), CheckBranches(t, cur, env, e.branches);
            && Check(t, cur, env, e).typ == AncestorOfAll(t, cur, c.types).0
            && Check(t, cur, env, e).errors == s.errors + c.errors + SamePairs(Decls(e.branches))
            && Check(t, cur, env, e).lost == (s.lost || c.lost || AncestorOfAll(t, cur, c.types).1)
    ensures Asked(t, env, e.scrutinee) && EnvSpelt(env)
    ensures SpellsBranches(e.branches) && ProperBranches(e.branches) && ScopedBranches(env, e.branches)
  {
    hide Tree, EnvSpelt, Lookup, CaseTyped, SamePairs, AncestorOfAll, CheckBranches;
  }

  lemma {:induction false} CaseDecided(t: Table, cur: Symbol, env: Scopes<Symbol>, e: Expr, typ: Symbol)
    requires Tree(t) && cur in t && Asked(t, env, e) && e.Case?
    ensures Agrees(t, cur, env, e, typ)
    decreases e, 0
  {
    hide Tree, EnvSpelt, Lookup, Least, Known, AncestorOfAll, SamePairs, BranchesTyped, CheckBranches, JoinAll, AllDifferent;
    hide Typed, Check, Asked, SpellsBranches, ProperBranches, ScopedBranches, Decls;
    var bs := e.branches;
    var c := CheckBranches(t, cur, env, bs);
    CaseUnfolds(t, cur, env, e, typ);
    Sub(t, cur, env, e.scrutinee);
    PairsZero(Decls(bs));
    BranchesDecided(t, cur, env, bs, c.types);
    AncestorsFound(t, cur, c.types);
    if |c.types| > 1 && AllKnownTypes(t, c.types) { JoinAllLeast(t, cur, c.types); }
    if CaseTyped(t, cur, env, e, typ) {
      var types: seq<Symbol> :| BranchesTyped(t, cur, env, bs, types)
                                && if |types| == 1 then typ == types[0] else Least(t, cur, types, typ);
      BranchesDecided(t, cur, env, bs, types);
      if |types| > 1 {
        LeastAllKnown(t, cur, types, typ);
        LeastIsUnique(t, cur, types, typ, JoinAll(t, cur, types));
      }
    }
  }

  predicate AllKnownTypes(t: Table, types: seq<Symbol>) {
    forall c <- types :: Known(t, c)
  }

  lemma LeastAllKnown(t: Table, cur: Symbol, types: seq<Symbol>, c: Symbol)
    requires Tree(t) && cur in t && Least(t, cur, types, c)
    ensures AllKnownTypes(t, types)
  {
  }

  /** The loop over the branch types loses no look-up exactly when there is one branch, or every type is known. */
  lemma {:induction false} AncestorsFound(t: Table, cur: Symbol, types: seq<Symbol>)
    requires Tree(t) && cur in t && types != []
    ensures |types| == 1 ==> AncestorOfAll(t, cur, types) == (types[0], false)
    ensures |types| > 1 ==> (!AncestorOfAll(t, cur, types).1 <==> AllKnownTypes(t, types))
    ensures |types| > 1 && AllKnownTypes(t, types) ==> AncestorOfAll(t, cur, types).0 == JoinAll(t, cur, types)
    decreases |types|
  {
    hide CommonAncestor, Tree, JoinAll, Known;
    var n := |types| - 1;
    if AllKnownTypes(t, types) { AncestorOfAllKnown(t, cur, types); }
    if n > 0 {
      AncestorsFound(t, cur, types[..n]);
      assert types == types[..n] + [types[n]];
    }
  }

  lemma {:induction false} OneJoined(t: Table, cur: Symbol, types: seq<Symbol>)
    requires Tree(t) && cur in t && types != [] && forall c <- types :: Known(t, c)
    ensures |types| == 1 ==> JoinAll(t, cur, types) == types[0]
  {
  }

  /**
    The checker decides the rules: it reports no error, looks up no class that is not there, and computes typ exactly
    when the expression has type typ; whatever types are declared, classes or not.
  */
  lemma {:induction false} CheckDecidesTyping(t: Table, cur: Symbol, env: Scopes<Symbol>, e: Expr, typ: Symbol)
    requires Tree(t) && cur in t && Asked(t, env, e)
    ensures Typed(t, cur, env, e, typ) <==> Check(t, cur, env, e) == Checked(typ, 0, false)
  {
    hide Tree, Typed, Check, Asked;
    Decided(t, cur, env, e, typ);
  }

  /**
    Whatever the expressions and the scopes: a let is accepted only if the type of its initialiser, computed inside the
    new scope, fits into the declared one; with no class of that name only the name itself does.
  */
  lemma {:induction false} AcceptedLetFits(t: Table, cur: Symbol, env: Scopes<Symbol>, x: string, declared: Symbol, init: Expr, body: Expr)
    requires Tree(t) && cur in t && Check(t, cur, env, Let(x, declared, init, body)).errors == 0
    ensures var a := Check(t, cur, env + [map[x := declared]], init).typ;
            && x != "self"
            && (Spelt(a) ==> FitsInto(t, cur, a, declared))
            && (Known(t, a) ==> Known(t, declared))
  {
    hide Tree, Lookup;
    var a := Check(t, cur, env + [map[x := declared]], init).typ;
    if Spelt(a) { InheritsIs(t, cur, declared, a); }
    NoTypeUnknown(t);
    if Known(t, a) && declared != SelfType { OnlyKnownAbove(t, cur, a, declared); }
  }

  lemma {:induction false} OnlyKnownAbove(t: Table, cur: Symbol, a: Symbol, declared: Symbol)
    requires Tree(t) && cur in t && Known(t, a) && declared != SelfType
    ensures Conforms(t, cur, a, declared) ==> declared in t
  {
    hide Tree;
    if Conforms(t, cur, a, declared) { AboveInTable(t, Resolve(cur, a), declared); }
  }

  lemma {:induction false} AboveInTable(t: Table, c: Symbol, a: Symbol)
    requires Tree(t) && c in t && Below(t, c, a)
    ensures a in t
    decreases Depth(t, c)
  {
    if c != a {
      DepthParent(t, c);
      AboveInTable(t, t[c], a);
    }
  }

  /** And an assignment only if the value fits into the variable. */
  lemma {:induction false} AcceptedAssignFits(t: Table, cur: Symbol, env: Scopes<Symbol>, x: string, value: Expr)
    requires Tree(t) && cur in t && Check(t, cur, env, Assign(x, value)).errors == 0
    ensures Lookup(env, x) != None
    ensures Spelt(Check(t, cur, env, value).typ) ==> FitsInto(t, cur, Check(t, cur, env, value).typ, Lookup(env, x).value)
  {
    hide Tree, Lookup;
    if Lookup(env, x) != None && Spelt(Check(t, cur, env, value).typ) {
      InheritsIs(t, cur, Lookup(env, x).value, Check(t, cur, env, value).typ);
    }
  }
}
