/**
  A let checks its initialiser inside the scope it opens, but the initialiser runs outside it. When this is
  harmless, exactly.
*/
module CoolLet {
  import opened Common
  import opened CoolClasses
  import opened CoolExpr
  import opened CoolSound
  import opened CoolPreservation

  /**
    A let the checker passes, of which only the initialiser's use of the new name is in question: lets inside the
    initialiser and the body are as they should be where the checker sees them.
  */
  ghost predicate Passes(c: Context, env: Scopes<Symbol>, x: string, typ: Symbol, init: Expr, body: Expr)
    requires Running(c)
  {
    var inner := env + [map[x := typ]];
    && Check(c.t, c.cur, env, Let(x, typ, init, body)).errors == 0
    && Declares(c.t, init) && (init == NoExpr || Proper(init)) && Scoped(inner, init)
    && Declares(c.t, body) && Proper(body) && Scoped(inner, body)
  }

  /** Every such let of x at the type is sound in every store. */
  ghost predicate SoundEverywhere(c: Context, env: Scopes<Symbol>, x: string, typ: Symbol)
    requires Running(c)
  {
    forall init, body, s: State, fuel: nat :: Passes(c, env, x, typ, init, body) && Fits(c, env, s.vars)
      ==> Sound(c, env, TypeOf(c, env, Let(x, typ, init, body)), Run(c, s, Let(x, typ, init, body), fuel))
  }

  // ---------------------------------------------------------------- a store for any scope

  /** A value of exactly the class. */
  function Exemplar(cls: Symbol): Value {
    if Leaf(cls) then Default(cls) else Obj(cls, 0)
  }

  function Defaults(env: Scopes<Symbol>): (r: Scopes<Value>)
    ensures |r| == |env|
    decreases |env|
  {
    if env == [] then []
    else
      var n := |env| - 1;
      Defaults(env[..n]) + [map x | x in env[n] :: Default(env[n][x])]
  }

  ghost predicate AllKnown(t: Table, env: Scopes<Symbol>) {
    forall i, x | 0 <= i < |env| && x in env[i] :: Known(t, env[i][x])
  }

  lemma {:induction false} DefaultsFit(c: Context, env: Scopes<Symbol>)
    requires Running(c) && AllKnown(c.t, env)
    ensures Fits(c, env, Defaults(env))
    decreases |env|
  {
    hide HasType, Tree, Known;
    if env != [] {
      var n := |env| - 1;
      DefaultsFit(c, env[..n]);
      assert Defaults(env)[..n] == Defaults(env[..n]);
      var types, vals := env[n], Defaults(env)[n];
      forall x | x in types
        ensures Known(c.t, types[x]) && HasType(c, vals[x], types[x])
      {
        DefaultHasType(c, types[x]);
      }
    }
  }

  lemma {:induction false} ExemplarHasType(c: Context, cls: Symbol, typ: Symbol)
    requires Running(c) && cls in c.t && Known(c.t, typ)
    ensures HasType(c, Exemplar(cls), typ) <==> Below(c.t, cls, Dynamic(c, typ))
  {
  }

  lemma {:induction false} LookupWritten<T>(vars: Scopes<T>, x: string, v: T, y: string)
    requires Lookup(vars, x) != None
    ensures Lookup(Write(vars, x, v), y) == if y == x then Some(v) else Lookup(vars, y)
    decreases |vars|
  {
    var n := |vars| - 1;
    var out := Write(vars, x, v);
    if x in vars[n] {
      assert out[..n] == vars[..n];
    } else {
      LookupWritten(vars[..n], x, v, y);
      assert out[..n] == Write(vars[..n], x, v);
    }
  }

  // ---------------------------------------------------------------- let x : typ <- init in x

  lemma {:induction false} InnerVar(c: Context, env: Scopes<Symbol>, x: string, typ: Symbol)
    requires Running(c) && x != "self"
    ensures Check(c.t, c.cur, env + [map[x := typ]], Var(x)) == Checked(typ, 0, false)
  {
    LookupPushed(env, x, typ, x);
    hide Lookup;
  }

  lemma {:induction false} CheckLet(c: Context, env: Scopes<Symbol>, x: string, typ: Symbol, init: Expr)
    requires Running(c) && x != "self" && Known(c.t, typ)
    ensures var r := Check(c.t, c.cur, env, Let(x, typ, init, Var(x)));
            && r.typ == typ
            && (Check(c.t, c.cur, env + [map[x := typ]], init) == Checked(typ, 0, false) ==> r.errors == 0)
  {
    hide Lookup;
    InnerVar(c, env, x, typ);
    assert Conforms(c.t, c.cur, typ, typ);
  }

  /** The let yields what its initialiser yields. */
  lemma RunLet(c: Context, s: State, x: string, typ: Symbol, init: Expr, fuel: nat)
    requires Running(c) && x != "self" && init != NoExpr
    ensures Run(c, s, Let(x, typ, init, Var(x)), fuel) == Run(c, s, init, fuel)
  {
    hide Eval, Lookup, Tree;
    LetUnfolds(c, s, x, typ, init, fuel);
    var r := Run(c, s, init, fuel);
    if r.Ok? {
      var inner := Pushed(r, x);
      LookupPushed(r.state.vars, x, r.value, x);
      ReadVar(c, inner, x, fuel);
      assert inner.vars[..|inner.vars| - 1] == r.state.vars;
      assert inner.(vars := r.state.vars) == r.state;
    }
  }

  /** The state a let's body runs in. */
  function Pushed(r: Result, x: string): State
    requires r.Ok?
  {
    r.state.(vars := r.state.vars + [map[x := r.value]])
  }

  lemma LetUnfolds(c: Context, s: State, x: string, typ: Symbol, init: Expr, fuel: nat)
    requires Running(c) && init != NoExpr
    ensures var r := Run(c, s, init, fuel);
            Run(c, s, Let(x, typ, init, Var(x)), fuel)
            == if !r.Ok? then r else Pop(Run(c, Pushed(r, x), Var(x), fuel))
  {
    hide Lookup, Tree, Pop;
  }

  lemma {:induction false} ReadVar(c: Context, s: State, x: string, fuel: nat)
    requires Running(c) && x != "self"
    ensures Run(c, s, Var(x), fuel) == if Lookup(s.vars, x) == None then Stuck else Ok(Lookup(s.vars, x).value, s)
  {
    hide Lookup;
  }

  lemma VarPasses(c: Context, env: Scopes<Symbol>, x: string, typ: Symbol)
    requires Running(c) && x != "self" && Known(c.t, typ)
    ensures Passes(c, env, x, typ, Var(x), Var(x)) && TypeOf(c, env, Let(x, typ, Var(x), Var(x))) == typ
  {
    InnerVar(c, env, x, typ);
    CheckLet(c, env, x, typ, Var(x));
    hide Lookup, Check, Tree;
  }

  lemma AssignPasses(c: Context, env: Scopes<Symbol>, x: string, typ: Symbol)
    requires Running(c) && x != "self" && Known(c.t, typ)
    ensures Passes(c, env, x, typ, Assign(x, New(typ)), Var(x)) && TypeOf(c, env, Let(x, typ, Assign(x, New(typ)), Var(x))) == typ
  {
    var inner := env + [map[x := typ]];
    LookupPushed(env, x, typ, x);
    assert Conforms(c.t, c.cur, typ, typ);
    hide Lookup;
    assert Check(c.t, c.cur, inner, New(typ)) == Checked(typ, 0, false);
    assert Check(c.t, c.cur, inner, Assign(x, New(typ))) == Checked(typ, 0, false);
    CheckLet(c, env, x, typ, Assign(x, New(typ)));
    hide Check, Tree;
    assert Proper(New(typ)) && Declares(c.t, New(typ)) && Scoped(inner, New(typ));
  }

  lemma {:induction false} RunAssign(c: Context, s: State, x: string, typ: Symbol, fuel: nat)
    requires Running(c) && Known(c.t, typ) && s.next == 0 && Lookup(s.vars, x) != None
    ensures var r := Run(c, s, Assign(x, New(typ)), fuel);
            r.Ok? && r.state.vars == Write(s.vars, x, Exemplar(Dynamic(c, typ)))
  {
    hide Lookup, Tree, Write;
    var made := Run(c, s, New(typ), fuel);
    assert made == Create(c.t, Dynamic(c, typ), s);
  }

  /** What a type is while the code runs is a class. */
  lemma DynamicKnown(c: Context, typ: Symbol)
    requires Running(c) && Known(c.t, typ)
    ensures Dynamic(c, typ) in c.t && Dynamic(c, typ) != SelfType
  {
  }

  lemma {:induction false} ReadsWrong(c: Context, env: Scopes<Symbol>, x: string, typ: Symbol)
    requires Running(c) && AllKnown(c.t, env) && x != "self" && Known(c.t, typ)
    requires var outer := Lookup(env, x);
             outer == None || (Known(c.t, outer.value) && Dynamic(c, outer.value) in c.t
                               && !Below(c.t, Dynamic(c, outer.value), Dynamic(c, typ)))
    ensures !SoundEverywhere(c, env, x, typ)
  {
    hide Fits, HasType, Tree;
    var outer := Lookup(env, x);
    var vars := Defaults(env);
    DefaultsFit(c, env);
    LookupFits(c, env, vars, x);
    if outer != None {
      var cls := Dynamic(c, outer.value);
      ExemplarHasType(c, cls, outer.value);
      ExemplarHasType(c, cls, typ);
      BelowItself(c.t, cls);
      WriteFits(c, env, vars, x, Exemplar(cls));
      LookupWritten(vars, x, Exemplar(cls), x);
      vars := Write(vars, x, Exemplar(cls));
    }
    hide Lookup, Below, Check, Scoped, Defaults, Write, Eval, Known, Dynamic;
    VarPasses(c, env, x, typ);
    RunLet(c, State(vars, 0), x, typ, Var(x), 0);
    ReadVar(c, State(vars, 0), x, 0);
    assert !Sound(c, env, typ, Run(c, State(vars, 0), Let(x, typ, Var(x), Var(x)), 0));
  }

  lemma {:induction false} BelowItself(t: Table, a: Symbol)
    requires Tree(t) && a in t
    ensures Below(t, a, a)
  {
  }

  lemma {:induction false} WritesWrong(c: Context, env: Scopes<Symbol>, x: string, typ: Symbol)
    requires Running(c) && AllKnown(c.t, env) && x != "self" && Known(c.t, typ)
    requires var outer := Lookup(env, x);
             outer != None && Known(c.t, outer.value) && Dynamic(c, typ) in c.t
             && !Below(c.t, Dynamic(c, typ), Dynamic(c, outer.value))
    ensures !SoundEverywhere(c, env, x, typ)
  {
    hide Fits, HasType, Tree;
    var cls := Dynamic(c, typ);
    var vars := Defaults(env);
    DefaultsFit(c, env);
    LookupFits(c, env, vars, x);
    var vars' := Write(vars, x, Exemplar(cls));
    LookupWritten(vars, x, Exemplar(cls), x);
    ExemplarHasType(c, cls, Lookup(env, x).value);
    if Fits(c, env, vars') { LookupFits(c, env, vars', x); }
    hide Lookup, Below, Check, Scoped, Defaults, Write, Eval, Known;
    AssignPasses(c, env, x, typ);
    RunLet(c, State(vars, 0), x, typ, Assign(x, New(typ)), 0);
    RunAssign(c, State(vars, 0), x, typ, 0);
    assert !Sound(c, env, typ, Run(c, State(vars, 0), Let(x, typ, Assign(x, New(typ)), Var(x)), 0));
  }

  // ---------------------------------------------------------------- the same scope with another name for the type

  /** Scoping, too, depends only on what the names stand for. */
  lemma {:induction false} ScopedSame(env: Scopes<Symbol>, env': Scopes<Symbol>, e: Expr)
    requires forall y :: Lookup(env, y) == Lookup(env', y)
    ensures Scoped(env, e) == Scoped(env', e)
    decreases e
  {
    match e
    case Assign(_, a) => ScopedSame(env, env', a);
    case Cond(a, b, c) => ScopedSame(env, env', a); ScopedSame(env, env', b); ScopedSame(env, env', c);
    case Loop(a, b) => ScopedSame(env, env', a); ScopedSame(env, env', b);
    case Case(a, bs) => ScopedSame(env, env', a); ScopedSameBranches(env, env', bs);
    case Block(es) => ScopedSameBlock(env, env', es);
    case Let(x, declared, init, body) =>
      ScopedSame(env, env', init);
      PushedEqual(env, env', x, declared);
      ScopedSame(env + [map[x := declared]], env' + [map[x := declared]], body);
    case Arith(_, a, b) => ScopedSame(env, env', a); ScopedSame(env, env', b);
    case Neg(a) => ScopedSame(env, env', a);
    case Compare(_, a, b) => ScopedSame(env, env', a); ScopedSame(env, env', b);
    case Equal(a, b) => ScopedSame(env, env', a); ScopedSame(env, env', b);
    case Not(a) => ScopedSame(env, env', a);
    case IsVoid(a) => ScopedSame(env, env', a);
    case _ =>
  }

  lemma {:induction false} ScopedSameBlock(env: Scopes<Symbol>, env': Scopes<Symbol>, es: Exprs)
    requires forall y :: Lookup(env, y) == Lookup(env', y)
    ensures ScopedBlock(env, es) == ScopedBlock(env', es)
    decreases es
  {
    match es
    case One(e) => ScopedSame(env, env', e);
    case More(e, rest) => ScopedSame(env, env', e); ScopedSameBlock(env, env', rest);
  }

  lemma {:induction false} ScopedSameBranches(env: Scopes<Symbol>, env': Scopes<Symbol>, bs: Branches)
    requires forall y :: Lookup(env, y) == Lookup(env', y)
    ensures ScopedBranches(env, bs) == ScopedBranches(env', bs)
    decreases bs
  {
    var b := bs.branch;
    PushedEqual(env, env', b.name, b.declared);
    ScopedSame(env + [map[b.name := b.declared]], env' + [map[b.name := b.declared]], b.body);
    if bs.And? { ScopedSameBranches(env, env', bs.others); }
  }

  lemma {:induction false} PushedEqual(env: Scopes<Symbol>, env': Scopes<Symbol>, x: string, typ: Symbol)
    requires forall y :: y != x ==> Lookup(env, y) == Lookup(env', y)
    ensures forall y :: Lookup(env + [map[x := typ]], y) == Lookup(env' + [map[x := typ]], y)
  {
    forall y
      ensures Lookup(env + [map[x := typ]], y) == Lookup(env' + [map[x := typ]], y)
    {
      LookupPushed(env, x, typ, y);
      LookupPushed(env', x, typ, y);
    }
  }

  /** x under another type that means the same class: the same stores fit. */
  lemma {:induction false} RetypedFits(c: Context, env: Scopes<Symbol>, x: string, typ: Symbol, vars: Scopes<Value>)
    requires Running(c) && Lookup(env, x) != None && Known(c.t, Lookup(env, x).value) && Known(c.t, typ)
    requires Dynamic(c, Lookup(env, x).value) == Dynamic(c, typ)
    ensures Fits(c, Write(env, x, typ), vars) <==> Fits(c, env, vars)
    decreases |env|
  {
    hide Tree, Below;
    var n := |env| - 1;
    var env' := Write(env, x, typ);
    if x in env[n] {
      assert env'[..n] == env[..n];
      if |vars| == |env| && env[n].Keys == vars[n].Keys {
        SameValues(c, vars[n][x], env[n][x], typ);
        assert ScopeFits(c, env'[n], vars[n]) <==> ScopeFits(c, env[n], vars[n]);
      }
    } else {
      assert env'[..n] == Write(env[..n], x, typ);
      if |vars| == |env| { RetypedFits(c, env[..n], x, typ, vars[..n]); }
    }
  }

  lemma SameValues(c: Context, v: Value, a: Symbol, b: Symbol)
    requires Running(c) && Known(c.t, a) && Known(c.t, b) && Dynamic(c, a) == Dynamic(c, b)
    ensures HasType(c, v, a) <==> HasType(c, v, b)
  {
    hide Below;
  }

  /** Seen with x at the declared type outside too, the let is one that preservation covers. */
  lemma {:induction false} LetAccepted(c: Context, env: Scopes<Symbol>, x: string, typ: Symbol, init: Expr, body: Expr)
    requires Running(c) && Known(c.t, typ) && Passes(c, env, x, typ, init, body) && Lookup(env, x) != None
    ensures var env', e := Write(env, x, typ), Let(x, typ, init, body);
            Accepted(c, env', e) && TypeOf(c, env', e) == TypeOf(c, env, e)
  {
    hide Tree, Check, Declares, Proper, Scoped, Free, Write, Lookup;
    var env' := Write(env, x, typ);
    var inner, inner' := env + [map[x := typ]], env' + [map[x := typ]];
    forall y
      ensures Lookup(env', y) == Lookup(inner, y) == Lookup(inner', y)
      ensures y != x ==> Lookup(env', y) == Lookup(env, y)
    {
      LookupWritten(env, x, typ, y);
      LookupPushed(env, x, typ, y);
      LookupPushed(env', x, typ, y);
    }
    assert SameFor(init, inner, inner') && SameFor(body, inner, inner');
    CheckSame(c.t, c.cur, inner, inner', init);
    CheckSame(c.t, c.cur, inner, inner', body);
    LetCheck(c, env, x, typ, init, body);
    LetCheck(c, env', x, typ, init, body);
    ScopedSame(inner, env', init);
    ScopedSame(inner, inner', body);
    LookupWritten(env, x, typ, x);
    LetShape(c.t, env', x, typ, init, body);
  }

  lemma {:induction false} LetCheck(c: Context, env: Scopes<Symbol>, x: string, typ: Symbol, init: Expr, body: Expr)
    requires Running(c)
    ensures var inner := env + [map[x := typ]];
            Check(c.t, c.cur, env, Let(x, typ, init, body))
            == LetRule(c.t, c.cur, x, typ, Check(c.t, c.cur, inner, init), Check(c.t, c.cur, inner, body))
  {
    hide LetRule, Tree;
  }

  lemma {:induction false} LetShape(t: Table, env: Scopes<Symbol>, x: string, typ: Symbol, init: Expr, body: Expr)
    requires Known(t, typ) && (init == NoExpr || Proper(init)) && Declares(t, init) && Scoped(env, init)
    requires Proper(body) && Declares(t, body) && Scoped(env + [map[x := typ]], body) && Lookup(env, x) == Some(typ)
    ensures var e := Let(x, typ, init, body); Proper(e) && Declares(t, e) && Scoped(env, e)
  {
    hide Lookup, Free;
  }

  lemma {:induction false} OuterKnown(c: Context, env: Scopes<Symbol>, x: string)
    requires Running(c) && AllKnown(c.t, env) && Lookup(env, x) != None
    ensures Known(c.t, Lookup(env, x).value)
  {
    DefaultsFit(c, env);
    LookupFits(c, env, Defaults(env), x);
  }

  // ---------------------------------------------------------------- exactly

  /**
    On a given object, lets of x at a type are sound, whatever the initialiser, the body and the store, exactly when
    x has a type outside that means the same class. Otherwise an accepted program can read a value of the wrong
    class, write one, or be stuck.
  */
  lemma {:induction false} LetSoundExactly(c: Context, env: Scopes<Symbol>, x: string, typ: Symbol)
    requires Running(c) && AllKnown(c.t, env) && x != "self" && Known(c.t, typ)
    ensures SoundEverywhere(c, env, x, typ)
            <==> Lookup(env, x) != None && Dynamic(c, Lookup(env, x).value) == Dynamic(c, typ)
  {
    hide Fits, HasType, Check, Scoped, Declares, Proper, Write, Eval, Tree, Accepted;
    var outer := Lookup(env, x);
    if outer == None {
      ReadsWrong(c, env, x, typ);
    } else {
      OuterKnown(c, env, x);
      var o, d := Dynamic(c, outer.value), Dynamic(c, typ);
      DynamicKnown(c, outer.value);
      DynamicKnown(c, typ);
      if o == d {
        forall init, body, s: State, fuel: nat | Passes(c, env, x, typ, init, body) && Fits(c, env, s.vars)
          ensures Sound(c, env, TypeOf(c, env, Let(x, typ, init, body)), Run(c, s, Let(x, typ, init, body), fuel))
        {
          SoundHere(c, env, x, typ, init, body, s, fuel);
        }
      } else {
        if Below(c.t, o, d) && Below(c.t, d, o) { BelowAntisymmetric(c.t, o, d); }
        if Below(c.t, o, d) { WritesWrong(c, env, x, typ); } else { ReadsWrong(c, env, x, typ); }
      }
    }
  }

  lemma {:induction false} SoundHere(c: Context, env: Scopes<Symbol>, x: string, typ: Symbol, init: Expr, body: Expr,
                                     s: State, fuel: nat)
    requires Running(c) && Known(c.t, typ) && Passes(c, env, x, typ, init, body) && Fits(c, env, s.vars)
    requires Lookup(env, x) != None && Known(c.t, Lookup(env, x).value)
    requires Dynamic(c, Lookup(env, x).value) == Dynamic(c, typ)
    ensures Sound(c, env, TypeOf(c, env, Let(x, typ, init, body)), Run(c, s, Let(x, typ, init, body), fuel))
  {
    hide Fits, HasType, Check, Scoped, Declares, Proper, Write, Eval, Tree, Accepted, Passes, Known, Lookup, Dynamic;
    var e := Let(x, typ, init, body);
    var env' := Write(env, x, typ);
    LetAccepted(c, env, x, typ, init, body);
    RetypedFits(c, env, x, typ, s.vars);
    Preservation(c, env', s, e, fuel);
    var r := Run(c, s, e, fuel);
    if r.Ok? { RetypedFits(c, env, x, typ, r.state.vars); }
  }

  /** Sound on every object the class's code can run on. */
  ghost predicate SoundForEverySelf(t: Table, cur: Symbol, env: Scopes<Symbol>, x: string, typ: Symbol)
    requires Tree(t) && cur in t
  {
    forall me {:trigger Context(t, cur, me)} :: Running(Context(t, cur, me)) ==> SoundEverywhere(Context(t, cur, me), env, x, typ)
  }

  /** No class inherits from cur. */
  ghost predicate Childless(t: Table, cur: Symbol)
    requires Tree(t)
  {
    forall cls :: cls in t && !Leaf(cls) && Below(t, cls, cur) ==> cls == cur
  }

  /**
    In the code of a class, such lets are sound for every object it can run on exactly when x has the declared type
    outside, or one of the two is SELF_TYPE, the other the class itself, and no class inherits from it.
  */
  lemma {:induction false} LetSoundForEverySelf(t: Table, cur: Symbol, env: Scopes<Symbol>, x: string, typ: Symbol)
    requires Tree(t) && cur in t && !Leaf(cur) && AllKnown(t, env) && x != "self" && Known(t, typ)
    ensures SoundForEverySelf(t, cur, env, x, typ)
            <==> Lookup(env, x) == Some(typ)
                 || (Childless(t, cur)
                     && ((Lookup(env, x) == Some(SelfType) && typ == cur) || (Lookup(env, x) == Some(cur) && typ == SelfType)))
  {
    hide SoundEverywhere, AllKnown, Lookup;
    var mine := Context(t, cur, Obj(cur, 0));
    BelowItself(t, cur);
    assert Running(mine);
    forall me | Running(Context(t, cur, me))
      ensures SoundEverywhere(Context(t, cur, me), env, x, typ)
              <==> Lookup(env, x) != None && Dynamic(Context(t, cur, me), Lookup(env, x).value) == Dynamic(Context(t, cur, me), typ)
    {
      LetSoundExactly(Context(t, cur, me), env, x, typ);
    }
    if Lookup(env, x) != None && !Childless(t, cur) {
      var cls :| cls in t && !Leaf(cls) && Below(t, cls, cur) && cls != cur;
      var other := Context(t, cur, Obj(cls, 0));
      assert Running(other);
    }
    hide Below;
  }
}
