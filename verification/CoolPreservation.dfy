/** The soundness theorem, expression by expression. */
module CoolPreservation {
  import opened Common
  import opened CoolClasses
  import opened CoolExpr
  import opened CoolSound

  // ---------------------------------------------------------------- no lost look-ups

  ghost predicate EnvKnown(t: Table, env: Scopes<Symbol>) {
    forall x :: Lookup(env, x) != None ==> Known(t, Lookup(env, x).value)
  }

  lemma PushedKnown(t: Table, env: Scopes<Symbol>, x: string, typ: Symbol)
    requires EnvKnown(t, env) && Known(t, typ)
    ensures EnvKnown(t, env + [map[x := typ]])
  {
    forall y
      ensures var l := Lookup(env + [map[x := typ]], y); l != None ==> Known(t, l.value)
    {
      LookupPushed(env, x, typ, y);
    }
  }

  lemma NoTypeUnknown(t: Table)
    requires Tree(t)
    ensures !Known(t, NoType) && Known(t, Int) && Known(t, Bool) && Known(t, Str) && Known(t, Object)
  {
  }

  ghost predicate Sane(t: Table, c: Checked) {
    Known(t, c.typ) && !c.lost
  }

  /**
    As long as no error has been reported, every type computed is a class or SELF_TYPE, so the checker has not
    looked up a class that does not exist.
  */
  lemma {:induction false} NothingLost(t: Table, cur: Symbol, env: Scopes<Symbol>, e: Expr)
    requires Tree(t) && cur in t && EnvKnown(t, env) && Declares(t, e) && Proper(e)
    requires Check(t, cur, env, e).errors == 0
    ensures Sane(t, Check(t, cur, env, e))
    decreases e, 1
  {
    NoTypeUnknown(t);
    if e.Arith? || e.Compare? || e.Equal? {
      NothingLostTwo(t, cur, env, e);
    } else if e.Neg? || e.Not? || e.IsVoid? {
      NothingLostOne(t, cur, env, e);
    } else if e.Assign? || e.Cond? || e.Loop? {
      NothingLostTest(t, cur, env, e);
    } else if e.Let? {
      NothingLostLet(t, cur, env, e);
    } else if e.Case? || e.Block? {
      NothingLostCase(t, cur, env, e);
    } else if e.Var? {
      assert Lookup(env, e.name) != None ==> Known(t, Lookup(env, e.name).value);
    }
  }

  lemma {:induction false} NothingLostOne(t: Table, cur: Symbol, env: Scopes<Symbol>, e: Expr)
    requires Tree(t) && cur in t && EnvKnown(t, env) && Declares(t, e) && Proper(e)
    requires Check(t, cur, env, e).errors == 0 && (e.Neg? || e.Not? || e.IsVoid?)
    ensures Sane(t, Check(t, cur, env, e))
    decreases e, 0
  {
    NoTypeUnknown(t);
    hide Tree, Known, EnvKnown, Lookup;
    NothingLost(t, cur, env, e.operand);
  }

  lemma {:induction false} NothingLostTwo(t: Table, cur: Symbol, env: Scopes<Symbol>, e: Expr)
    requires Tree(t) && cur in t && EnvKnown(t, env) && Declares(t, e) && Proper(e)
    requires Check(t, cur, env, e).errors == 0 && (e.Arith? || e.Compare? || e.Equal?)
    ensures Sane(t, Check(t, cur, env, e))
    decreases e, 0
  {
    NoTypeUnknown(t);
    hide Tree, Known, EnvKnown, Lookup;
    NothingLost(t, cur, env, e.left);
    NothingLost(t, cur, env, e.right);
  }

  lemma {:induction false} NothingLostTest(t: Table, cur: Symbol, env: Scopes<Symbol>, e: Expr)
    requires Tree(t) && cur in t && EnvKnown(t, env) && Declares(t, e) && Proper(e)
    requires Check(t, cur, env, e).errors == 0 && (e.Assign? || e.Cond? || e.Loop?)
    ensures Sane(t, Check(t, cur, env, e))
    decreases e, 0
  {
    NoTypeUnknown(t);
    if e.Assign? {
      assert Lookup(env, e.name) != None ==> Known(t, Lookup(env, e.name).value);
      hide Tree, EnvKnown, Lookup, Conforms;
      NothingLost(t, cur, env, e.value);
    } else {
      NothingLost(t, cur, env, e.pred);
      if e.Cond? {
        hide Tree, EnvKnown, Lookup, CommonAncestor;
        NothingLost(t, cur, env, e.thenExp);
        NothingLost(t, cur, env, e.elseExp);
      } else {
        NothingLost(t, cur, env, e.body);
      }
    }
  }

  lemma {:induction false} NothingLostLet(t: Table, cur: Symbol, env: Scopes<Symbol>, e: Expr)
    requires Tree(t) && cur in t && EnvKnown(t, env) && Declares(t, e) && Proper(e)
    requires Check(t, cur, env, e).errors == 0 && e.Let?
    ensures Sane(t, Check(t, cur, env, e))
    decreases e, 0
  {
    hide Tree, EnvKnown, Lookup, Conforms;
    NoTypeUnknown(t);
    var inner := env + [map[e.id := e.declared]];
    PushedKnown(t, env, e.id, e.declared);
    if e.init != NoExpr { NothingLost(t, cur, inner, e.init); }
    NothingLost(t, cur, inner, e.body);
  }

  lemma {:induction false} NothingLostCase(t: Table, cur: Symbol, env: Scopes<Symbol>, e: Expr)
    requires Tree(t) && cur in t && EnvKnown(t, env) && Declares(t, e) && Proper(e)
    requires Check(t, cur, env, e).errors == 0 && (e.Case? || e.Block?)
    ensures Sane(t, Check(t, cur, env, e))
    decreases e, 0
  {
    hide Tree, EnvKnown, Lookup, JoinAll, SamePairs;
    NoTypeUnknown(t);
    match e
    case Case(a, bs) =>
      NothingLost(t, cur, env, a);
      NothingLostBranches(t, cur, env, bs);
      AncestorOfAllKnown(t, cur, CheckBranches(t, cur, env, bs).types);
      hide AncestorOfAll;
    case Block(es) =>
      NothingLostBlock(t, cur, env, es);
  }

  lemma {:induction false} NothingLostBlock(t: Table, cur: Symbol, env: Scopes<Symbol>, es: Exprs)
    requires Tree(t) && cur in t && EnvKnown(t, env) && DeclaresBlock(t, es) && ProperBlock(es)
    requires CheckBlock(t, cur, env, es).errors == 0
    ensures Sane(t, CheckBlock(t, cur, env, es))
    decreases es, 1
  {
    hide Tree, EnvKnown, Known;
    match es
    case One(e) => NothingLost(t, cur, env, e);
    case More(e, rest) =>
      NothingLost(t, cur, env, e);
      NothingLostBlock(t, cur, env, rest);
  }

  lemma {:induction false} NothingLostBranches(t: Table, cur: Symbol, env: Scopes<Symbol>, bs: Branches)
    requires Tree(t) && cur in t && EnvKnown(t, env) && DeclaresBranches(t, bs) && ProperBranches(bs)
    requires CheckBranches(t, cur, env, bs).errors == 0
    ensures !CheckBranches(t, cur, env, bs).lost
    ensures forall c <- CheckBranches(t, cur, env, bs).types :: Known(t, c)
    decreases bs, 1
  {
    var b := bs.branch;
    PushedKnown(t, env, b.name, b.declared);
    NothingLost(t, cur, env + [map[b.name := b.declared]], b.body);
    if bs.And? { NothingLostBranches(t, cur, env, bs.others); }
  }

  // ---------------------------------------------------------------- preservation

  /** Accepted: no error reported, declared types are classes, initialisers do not mention the name they define. */
  ghost predicate Accepted(c: Context, env: Scopes<Symbol>, e: Expr)
    requires Running(c)
  {
    Check(c.t, c.cur, env, e).errors == 0 && Declares(c.t, e) && Proper(e) && Scoped(env, e)
  }

  /** Not stuck; and if there is a value, it has the type and every variable still has its declared type. */
  ghost predicate Sound(c: Context, env: Scopes<Symbol>, typ: Symbol, r: Result)
    requires Running(c)
  {
    match r
    case Ok(v, s) => Known(c.t, typ) && HasType(c, v, typ) && Fits(c, env, s.vars)
    case Stuck => false
    case _ => true
  }

  function TypeOf(c: Context, env: Scopes<Symbol>, e: Expr): Symbol
    requires Tree(c.t) && c.cur in c.t
  {
    Check(c.t, c.cur, env, e).typ
  }

  function Run(c: Context, s: State, e: Expr, fuel: nat): Result
    requires Tree(c.t)
  {
    Eval(c.t, c.me, s, e, fuel)
  }

  lemma {:induction false} FitsKnown(c: Context, env: Scopes<Symbol>, vars: Scopes<Value>)
    requires Tree(c.t) && c.me.Obj? && Fits(c, env, vars)
    ensures EnvKnown(c.t, env)
  {
    forall x
      ensures Lookup(env, x) != None ==> Known(c.t, Lookup(env, x).value)
    {
      LookupFits(c, env, vars, x);
    }
  }

  /**
    Type soundness. An accepted expression, run on any object below the current class, with variables of their
    declared types, is never stuck; a value it yields has the computed type, and the variables keep theirs.
  */
  lemma {:induction false} Preservation(c: Context, env: Scopes<Symbol>, s: State, e: Expr, fuel: nat)
    requires Running(c) && Accepted(c, env, e) && Fits(c, env, s.vars)
    ensures Sound(c, env, TypeOf(c, env, e), Run(c, s, e, fuel))
    decreases fuel, e, 1
  {
    match e
    case Assign(_, _) => AssignSound(c, env, s, e, fuel);
    case Cond(_, _, _) => CondSound(c, env, s, e, fuel);
    case Loop(_, _) => LoopSound(c, env, s, e, fuel);
    case Case(_, _) => CaseSound(c, env, s, e, fuel);
    case Block(es) => BlockSound(c, env, s, es, fuel);
    case Let(_, _, _, _) => LetSound(c, env, s, e, fuel);
    case Arith(_, _, _) => NumberSound(c, env, s, e, fuel);
    case Compare(_, _, _) => NumberSound(c, env, s, e, fuel);
    case Equal(_, _) => EqualSound(c, env, s, e, fuel);
    case Neg(_) => OperandSound(c, env, s, e, fuel);
    case Not(_) => OperandSound(c, env, s, e, fuel);
    case IsVoid(_) => OperandSound(c, env, s, e, fuel);
    case _ => AtomSound(c, env, s, e, fuel);
  }

  lemma {:induction false} AtomSound(c: Context, env: Scopes<Symbol>, s: State, e: Expr, fuel: nat)
    requires Running(c) && Accepted(c, env, e) && Fits(c, env, s.vars)
    requires e.IntConst? || e.BoolConst? || e.StrConst? || e.New? || e.NoExpr? || e.Var?
    ensures Sound(c, env, TypeOf(c, env, e), Run(c, s, e, fuel))
  {
    if e.Var? {
      hide Fits, HasType, Tree, Known;
      if e.name == "self" { SelfHasType(c); } else { LookupFits(c, env, s.vars, e.name); }
    } else if e.New? {
      hide Fits, Lookup;
      CreateSound(c, env, e.cls, s);
      hide Create, HasType;
    } else {
      ConstsHaveType(c);
      hide Fits, Lookup, HasType;
    }
  }

  lemma {:induction false} CreateSound(c: Context, env: Scopes<Symbol>, cls: Symbol, s: State)
    requires Running(c) && Known(c.t, cls) && Fits(c, env, s.vars)
    ensures Sound(c, env, cls, Create(c.t, Dynamic(c, cls), s))
  {
    hide Fits;
  }

  lemma ConstsHaveType(c: Context)
    requires Running(c)
    ensures Known(c.t, Int) && Known(c.t, Bool) && Known(c.t, Str)
    ensures forall i :: HasType(c, IntVal(i), Int)
    ensures forall b :: HasType(c, BoolVal(b), Bool)
    ensures forall s :: HasType(c, StrVal(s), Str)
  {
  }

  lemma SelfHasType(c: Context)
    requires Running(c)
    ensures HasType(c, c.me, SelfType) && Known(c.t, SelfType)
  {
  }

  lemma {:induction false} AssignSound(c: Context, env: Scopes<Symbol>, s: State, e: Expr, fuel: nat)
    requires Running(c) && Accepted(c, env, e) && Fits(c, env, s.vars) && e.Assign?
    ensures Sound(c, env, TypeOf(c, env, e), Run(c, s, e, fuel))
    decreases fuel, e, 0
  {
    hide HasType, Fits, Conforms, Known, Tree;
    Preservation(c, env, s, e.value, fuel);
    var r := Run(c, s, e.value, fuel);
    if r.Ok? {
      LookupFits(c, env, r.state.vars, e.name);
      var a, b := TypeOf(c, env, e.value), Lookup(env, e.name).value;
      InheritsMeans(c, b, a);
      Subsumed(c, r.value, a, b);
      WriteFits(c, env, r.state.vars, e.name, r.value);
    }
  }

  lemma InheritsMeans(c: Context, ancestor: Symbol, child: Symbol)
    requires Running(c) && Known(c.t, child) && Inherits(c.t, c.cur, ancestor, child).yes
    ensures Conforms(c.t, c.cur, child, ancestor)
  {
  }

  lemma {:induction false} CondSound(c: Context, env: Scopes<Symbol>, s: State, e: Expr, fuel: nat)
    requires Running(c) && Accepted(c, env, e) && Fits(c, env, s.vars) && e.Cond?
    ensures Sound(c, env, TypeOf(c, env, e), Run(c, s, e, fuel))
    decreases fuel, e, 0
  {
    NoTypeUnknown(c.t);
    hide HasType, Fits, Known, Tree, CommonAncestor;
    FitsKnown(c, env, s.vars);
    NothingLost(c.t, c.cur, env, e.thenExp);
    NothingLost(c.t, c.cur, env, e.elseExp);
    Preservation(c, env, s, e.pred, fuel);
    var p := Run(c, s, e.pred, fuel);
    if p.Ok? {
      TestValue(c, p.value);
      var next := if p.value.b then e.thenExp else e.elseExp;
      Preservation(c, env, p.state, next, fuel);
      var r := Run(c, p.state, next, fuel);
      if r.Ok? {
        Joined(c, r.value, TypeOf(c, env, e.thenExp), TypeOf(c, env, e.elseExp));
      }
    }
  }

  lemma TestValue(c: Context, v: Value)
    requires Running(c) && HasType(c, v, Bool)
    ensures v.BoolVal?
  {
    BasicValue(c, v, Bool);
    hide HasType;
  }

  lemma {:induction false} LoopSound(c: Context, env: Scopes<Symbol>, s: State, e: Expr, fuel: nat)
    requires Running(c) && Accepted(c, env, e) && Fits(c, env, s.vars) && e.Loop?
    ensures Sound(c, env, TypeOf(c, env, e), Run(c, s, e, fuel))
    decreases fuel, e, 0
  {
    NoTypeUnknown(c.t);
    assert HasType(c, Void, Object);
    hide HasType, Fits, Known, Tree, Lookup;
    Preservation(c, env, s, e.pred, fuel);
    var p := Run(c, s, e.pred, fuel);
    if p.Ok? {
      TestValue(c, p.value);
      if p.value.b {
        Preservation(c, env, p.state, e.body, fuel);
        var r := Run(c, p.state, e.body, fuel);
        if r.Ok? && fuel > 0 {
          Preservation(c, env, r.state, e, fuel - 1);
        }
      }
    }
  }

  lemma {:induction false} BlockSound(c: Context, env: Scopes<Symbol>, s: State, es: Exprs, fuel: nat)
    requires Running(c) && Fits(c, env, s.vars)
    requires CheckBlock(c.t, c.cur, env, es).errors == 0
    requires DeclaresBlock(c.t, es) && ProperBlock(es) && ScopedBlock(env, es)
    ensures Sound(c, env, CheckBlock(c.t, c.cur, env, es).typ, EvalBlock(c.t, c.me, s, es, fuel))
    decreases fuel, es, 1
  {
    hide HasType, Fits, Known, Tree;
    match es
    case One(e) => Preservation(c, env, s, e, fuel);
    case More(e, rest) =>
      Preservation(c, env, s, e, fuel);
      var r := Run(c, s, e, fuel);
      if r.Ok? { BlockSound(c, env, r.state, rest, fuel); }
  }

  /** A body run in one more scope, which is dropped afterwards. */
  lemma PopSound(c: Context, env: Scopes<Symbol>, x: string, declared: Symbol, typ: Symbol, r: Result)
    requires Running(c) && Sound(c, env + [map[x := declared]], typ, r)
    ensures Sound(c, env, typ, Pop(r))
  {
    hide HasType, Fits, Known, Tree;
    if r.Ok? { PopFits(c, env, map[x := declared], r.state.vars); }
  }

  lemma {:induction false} LetSound(c: Context, env: Scopes<Symbol>, s: State, e: Expr, fuel: nat)
    requires Running(c) && Accepted(c, env, e) && Fits(c, env, s.vars) && e.Let?
    ensures Sound(c, env, TypeOf(c, env, e), Run(c, s, e, fuel))
    decreases fuel, e, 0
  {
    LetParts(c, env, e);
    hide HasType, Fits, Known, Tree, Conforms, Check, Scoped, Declares, Proper, Lookup;
    var x, declared := e.id, e.declared;
    var inner := env + [map[x := declared]];
    var r := if e.init == NoExpr then Ok(Default(declared), s) else Run(c, s, e.init, fuel);
    if e.init == NoExpr {
      DefaultHasType(c, declared);
    } else {
      Preservation(c, env, s, e.init, fuel);
      if r.Ok? { Subsumed(c, r.value, TypeOf(c, env, e.init), declared); }
    }
    if r.Ok? {
      PushFits(c, env, r.state.vars, x, declared, r.value);
      var s' := r.state.(vars := r.state.vars + [map[x := r.value]]);
      Preservation(c, inner, s', e.body, fuel);
      PopSound(c, env, x, declared, TypeOf(c, inner, e.body), Run(c, s', e.body, fuel));
    }
  }

  lemma LetParts(c: Context, env: Scopes<Symbol>, e: Expr)
    requires Running(c) && Accepted(c, env, e) && e.Let?
    ensures Known(c.t, e.declared) && Accepted(c, env + [map[e.id := e.declared]], e.body)
    ensures TypeOf(c, env, e) == TypeOf(c, env + [map[e.id := e.declared]], e.body)
    ensures e.init != NoExpr ==> Accepted(c, env, e.init)
    ensures var typ := TypeOf(c, env, e.init);
            e.init != NoExpr && Known(c.t, typ) ==> Conforms(c.t, c.cur, typ, e.declared)
  {
    NoTypeUnknown(c.t);
    hide Known, Tree, Conforms, Lookup;
    InitChecked(c.t, c.cur, env, e.id, e.declared, e.init);
  }

  lemma {:induction false} NumberSound(c: Context, env: Scopes<Symbol>, s: State, e: Expr, fuel: nat)
    requires Running(c) && Accepted(c, env, e) && Fits(c, env, s.vars) && (e.Arith? || e.Compare?)
    ensures Sound(c, env, TypeOf(c, env, e), Run(c, s, e, fuel))
    decreases fuel, e, 0
  {
    BasicsHaveType(c);
    hide HasType, Fits, Known, Tree, Lookup, Apply;
    Preservation(c, env, s, e.left, fuel);
    var l := Run(c, s, e.left, fuel);
    if l.Ok? {
      Preservation(c, env, l.state, e.right, fuel);
      var r := Run(c, l.state, e.right, fuel);
      if r.Ok? {
        NumberValue(c, l.value);
        NumberValue(c, r.value);
        if e.Arith? { ApplySound(c, env, e.op, l.value.i, r.value.i, r.state); }
      }
    }
  }

  lemma NumberValue(c: Context, v: Value)
    requires Running(c) && HasType(c, v, Int)
    ensures v.IntVal?
  {
    BasicValue(c, v, Int);
    hide HasType;
  }

  lemma {:induction false} ApplySound(c: Context, env: Scopes<Symbol>, op: ArithOp, x: int, y: int, s: State)
    requires Running(c) && Fits(c, env, s.vars)
    ensures Sound(c, env, Int, Apply(op, x, y, s))
  {
    BasicsHaveType(c);
    hide HasType, Fits, Known, Tree;
  }

  lemma BasicsHaveType(c: Context)
    requires Running(c)
    ensures Known(c.t, Int) && Known(c.t, Bool)
    ensures forall i :: HasType(c, IntVal(i), Int)
    ensures forall b :: HasType(c, BoolVal(b), Bool)
  {
  }

  lemma {:induction false} EqualSound(c: Context, env: Scopes<Symbol>, s: State, e: Expr, fuel: nat)
    requires Running(c) && Accepted(c, env, e) && Fits(c, env, s.vars) && e.Equal?
    ensures Sound(c, env, TypeOf(c, env, e), Run(c, s, e, fuel))
    decreases fuel, e, 0
  {
    BasicsHaveType(c);
    hide HasType, Fits, Known, Tree;
    Preservation(c, env, s, e.left, fuel);
    var l := Run(c, s, e.left, fuel);
    if l.Ok? { Preservation(c, env, l.state, e.right, fuel); }
  }

  lemma {:induction false} OperandSound(c: Context, env: Scopes<Symbol>, s: State, e: Expr, fuel: nat)
    requires Running(c) && Accepted(c, env, e) && Fits(c, env, s.vars) && (e.Neg? || e.Not? || e.IsVoid?)
    ensures Sound(c, env, TypeOf(c, env, e), Run(c, s, e, fuel))
    decreases fuel, e, 0
  {
    BasicsHaveType(c);
    hide HasType, Fits, Known, Tree;
    Preservation(c, env, s, e.operand, fuel);
    var r := Run(c, s, e.operand, fuel);
    if r.Ok? && e.Neg? { NumberValue(c, r.value); }
    if r.Ok? && e.Not? { TestValue(c, r.value); }
  }

  // ---------------------------------------------------------------- case

  /** The branch chosen is the one of the closest class above the value's. */
  lemma {:induction false} ClosestIs(t: Table, cls: Symbol, decls: seq<Symbol>)
    requires Tree(t) && cls in t
    ensures var r := Closest(t, cls, decls);
            && (r == None <==> forall d <- decls :: !Below(t, cls, d))
            && (r != None ==> r.value in decls && Below(t, cls, r.value))
            && (r != None ==> forall d <- decls :: Below(t, cls, d) && r.value in t ==> Below(t, r.value, d))
    decreases Depth(t, cls)
  {
    if cls !in decls && cls != Object {
      DepthParent(t, cls);
      ClosestIs(t, t[cls], decls);
    }
  }

  lemma {:induction false} CaseSound(c: Context, env: Scopes<Symbol>, s: State, e: Expr, fuel: nat)
    requires Running(c) && Accepted(c, env, e) && Fits(c, env, s.vars) && e.Case?
    ensures Sound(c, env, TypeOf(c, env, e), Run(c, s, e, fuel))
    decreases fuel, e, 0
  {
    var bs := e.branches;
    CaseParts(c, env, s.vars, e);
    hide HasType, Fits, Known, Tree, Check, Scoped, Declares, Proper, Lookup, JoinAll, Below, CheckBranches, Closest;
    hide AcceptedBranches, EvalBranch, Decls, SoundBranch;
    Preservation(c, env, s, e.scrutinee, fuel);
    var r := Run(c, s, e.scrutinee, fuel);
    if r.Ok? && r.value != Void {
      ClassKnown(c, r.value, TypeOf(c, env, e.scrutinee));
      var d := Closest(c.t, ClassOf(r.value), Decls(bs));
      if d != None {
        ChosenFits(c, env, bs, r.value, d.value);
        BranchSound(c, env, r.state, bs, d.value, r.value, fuel);
        BranchType(c, env, bs, EvalBranch(c.t, c.me, r.state, bs, d.value, r.value, fuel));
      }
    }
  }

  lemma ClassKnown(c: Context, v: Value, typ: Symbol)
    requires Running(c) && HasType(c, v, typ) && v != Void
    ensures ClassOf(v) in c.t && (v.Obj? ==> !Leaf(v.cls))
  {
  }

  lemma {:induction false} ChosenFits(c: Context, env: Scopes<Symbol>, bs: Branches, v: Value, d: Symbol)
    requires Running(c) && AcceptedBranches(c, env, bs) && v != Void
    requires ClassOf(v) in c.t && (v.Obj? ==> !Leaf(v.cls))
    requires Closest(c.t, ClassOf(v), Decls(bs)) == Some(d)
    ensures d in Decls(bs) && HasType(c, v, d) && Known(c.t, d)
  {
    hide Closest, CheckBranches;
    ClosestIs(c.t, ClassOf(v), Decls(bs));
    DeclaredKnown(c.t, bs, d);
  }

  lemma {:induction false} CaseParts(c: Context, env: Scopes<Symbol>, vars: Scopes<Value>, e: Expr)
    requires Running(c) && Accepted(c, env, e) && Fits(c, env, vars) && e.Case?
    ensures Accepted(c, env, e.scrutinee) && AcceptedBranches(c, env, e.branches)
    ensures var types := CheckBranches(c.t, c.cur, env, e.branches).types;
            && (forall a <- types :: Known(c.t, a))
            && TypeOf(c, env, e) == JoinAll(c.t, c.cur, types)
  {
    hide Tree, Known, Fits, SamePairs, AncestorOfAll;
    FitsKnown(c, env, vars);
    NothingLostBranches(c.t, c.cur, env, e.branches);
    AncestorOfAllKnown(c.t, c.cur, CheckBranches(c.t, c.cur, env, e.branches).types);
  }

  ghost predicate AcceptedBranches(c: Context, env: Scopes<Symbol>, bs: Branches)
    requires Running(c)
  {
    && CheckBranches(c.t, c.cur, env, bs).errors == 0
    && DeclaresBranches(c.t, bs) && ProperBranches(bs) && ScopedBranches(env, bs)
  }

  lemma {:induction false} DeclaredKnown(t: Table, bs: Branches, d: Symbol)
    requires DeclaresBranches(t, bs) && d in Decls(bs)
    ensures d in t
  {
    if bs.And? && d != bs.branch.declared { DeclaredKnown(t, bs.others, d); }
  }

  /** The result of a branch is of the type of one of the branches. */
  ghost predicate SoundBranch(c: Context, env: Scopes<Symbol>, bs: Branches, r: Result)
    requires Running(c)
  {
    exists i: nat :: i < |CheckBranches(c.t, c.cur, env, bs).types|
                     && Sound(c, env, CheckBranches(c.t, c.cur, env, bs).types[i], r)
  }

  lemma {:induction false} BranchSound(c: Context, env: Scopes<Symbol>, s: State, bs: Branches, d: Symbol, v: Value,
                                       fuel: nat)
    requires Running(c) && Fits(c, env, s.vars) && AcceptedBranches(c, env, bs)
    requires d in Decls(bs) && HasType(c, v, d) && Known(c.t, d)
    ensures SoundBranch(c, env, bs, EvalBranch(c.t, c.me, s, bs, d, v, fuel))
    decreases fuel, bs, 1
  {
    hide HasType, Fits, Known, Tree;
    var b := bs.branch;
    var types := CheckBranches(c.t, c.cur, env, bs).types;
    if b.declared == d {
      var inner := env + [map[b.name := d]];
      var s' := s.(vars := s.vars + [map[b.name := v]]);
      PushFits(c, env, s.vars, b.name, d, v);
      Preservation(c, inner, s', b.body, fuel);
      PopSound(c, env, b.name, d, TypeOf(c, inner, b.body), Run(c, s', b.body, fuel));
      assert Sound(c, env, types[0], EvalBranch(c.t, c.me, s, bs, d, v, fuel));
    } else {
      BranchSound(c, env, s, bs.others, d, v, fuel);
      var rest := CheckBranches(c.t, c.cur, env, bs.others).types;
      var r := EvalBranch(c.t, c.me, s, bs, d, v, fuel);
      var i: nat :| i < |rest| && Sound(c, env, rest[i], r);
      assert types[i + 1] == rest[i];
    }
  }

  lemma {:induction false} BranchType(c: Context, env: Scopes<Symbol>, bs: Branches, r: Result)
    requires Running(c) && SoundBranch(c, env, bs, r)
    requires forall a <- CheckBranches(c.t, c.cur, env, bs).types :: Known(c.t, a)
    ensures Sound(c, env, JoinAll(c.t, c.cur, CheckBranches(c.t, c.cur, env, bs).types), r)
  {
    hide HasType, Fits, Tree, JoinAll;
    var types := CheckBranches(c.t, c.cur, env, bs).types;
    var i: nat :| i < |types| && Sound(c, env, types[i], r);
    if r.Ok? { JoinedAll(c, r.value, types, i); }
  }
}
