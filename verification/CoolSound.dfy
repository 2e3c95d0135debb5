/**
  Type soundness of the dispatch-free expressions: what an accepted expression evaluates to has the type the
  checker computed, and every variable keeps its declared type.
*/
module CoolSound {
  import opened Common
  import opened CoolClasses
  import opened CoolExpr

  /** The class table, the class being checked, and the object its code runs on. */
  datatype Context = Context(t: Table, cur: Symbol, me: Value)

  /** self may be of any class below the current one. */
  ghost predicate Running(c: Context) {
    && Tree(c.t) && c.cur in c.t
    && c.me.Obj? && c.me.cls in c.t && !Leaf(c.me.cls)
    && Below(c.t, c.me.cls, c.cur)
  }

  /** What SELF_TYPE means at run time. */
  function Dynamic(c: Context, typ: Symbol): Symbol
    requires c.me.Obj?
  {
    if typ == SelfType then c.me.cls else typ
  }

  /** v is of the type: void is of every type but the basic ones. */
  ghost predicate HasType(c: Context, v: Value, typ: Symbol)
    requires Tree(c.t) && c.me.Obj?
  {
    if v == Void then !Leaf(typ)
    else
      && ClassOf(v) in c.t && Below(c.t, ClassOf(v), Dynamic(c, typ))
      && (v.Obj? ==> !Leaf(v.cls))
  }

  ghost predicate ScopeFits(c: Context, types: map<string, Symbol>, vals: map<string, Value>)
    requires Tree(c.t) && c.me.Obj?
  {
    && types.Keys == vals.Keys
    && forall x <- types :: Known(c.t, types[x]) && HasType(c, vals[x], types[x])
  }

  /** Every variable in scope has its declared type. */
  ghost predicate Fits(c: Context, env: Scopes<Symbol>, vars: Scopes<Value>)
    requires Tree(c.t) && c.me.Obj?
    decreases |env|
  {
    && |env| == |vars|
    && (env != [] ==> var n := |env| - 1; ScopeFits(c, env[n], vars[n]) && Fits(c, env[..n], vars[..n]))
  }

  // ---------------------------------------------------------------- values and types

  lemma CurIsNoLeaf(c: Context)
    requires Running(c)
    ensures !Leaf(c.cur)
  {
    if Leaf(c.cur) { LeafBelow(c.t, c.me.cls, c.cur); }
  }

  /** A value of a type is of every type that type conforms to, whatever the class of self. */
  lemma Subsumed(c: Context, v: Value, a: Symbol, b: Symbol)
    requires Running(c) && Known(c.t, a) && HasType(c, v, a) && Conforms(c.t, c.cur, a, b)
    ensures HasType(c, v, b)
  {
    if b != SelfType {
      CurIsNoLeaf(c);
      if a == SelfType {
        BelowTransitive(c.t, c.me.cls, c.cur, b);
        if v != Void { BelowTransitive(c.t, ClassOf(v), c.me.cls, b); }
        if Leaf(b) { LeafBelow(c.t, c.cur, b); }
      } else {
        if v != Void { BelowTransitive(c.t, ClassOf(v), a, b); }
        if Leaf(b) { LeafBelow(c.t, a, b); }
      }
    }
  }

  lemma Joined(c: Context, v: Value, a: Symbol, b: Symbol)
    requires Running(c) && Known(c.t, a) && Known(c.t, b)
    requires HasType(c, v, a) || HasType(c, v, b)
    ensures HasType(c, v, CommonAncestor(c.t, c.cur, a, b))
  {
    var j := CommonAncestor(c.t, c.cur, a, b);
    CommonAncestorIsLeast(c.t, c.cur, a, b, j);
    assert Conforms(c.t, c.cur, j, j);
    hide Below, CommonAncestor, Conforms, HasType, Tree;
    if HasType(c, v, a) { Subsumed(c, v, a, j); }
    if HasType(c, v, b) { Subsumed(c, v, b, j); }
  }

  lemma {:induction false} JoinedAll(c: Context, v: Value, types: seq<Symbol>, i: nat)
    requires Running(c) && types != [] && (forall a <- types :: Known(c.t, a))
    requires i < |types| && HasType(c, v, types[i])
    ensures HasType(c, v, JoinAll(c.t, c.cur, types))
  {
    if |types| > 1 {
      var j := JoinAll(c.t, c.cur, types);
      JoinAllIsLeast(c.t, c.cur, types, j);
      assert Conforms(c.t, c.cur, j, j);
      Subsumed(c, v, types[i], j);
    }
  }

  lemma DefaultHasType(c: Context, typ: Symbol)
    requires Running(c) && Known(c.t, typ)
    ensures HasType(c, Default(typ), typ)
  {
  }

  lemma BasicValue(c: Context, v: Value, typ: Symbol)
    requires Running(c) && HasType(c, v, typ) && Leaf(typ)
    ensures v != Void && ClassOf(v) == typ
  {
    LeafBelow(c.t, ClassOf(v), typ);
  }

  // ---------------------------------------------------------------- variables

  lemma {:induction false} LookupFits(c: Context, env: Scopes<Symbol>, vars: Scopes<Value>, x: string)
    requires Tree(c.t) && c.me.Obj? && Fits(c, env, vars)
    ensures Lookup(env, x) == None <==> Lookup(vars, x) == None
    ensures var typ := Lookup(env, x);
            typ != None ==> Known(c.t, typ.value) && HasType(c, Lookup(vars, x).value, typ.value)
    decreases |env|
  {
    hide HasType;
    if env != [] && x !in env[|env| - 1] {
      LookupFits(c, env[..|env| - 1], vars[..|env| - 1], x);
    }
  }

  lemma {:induction false} WriteFits(c: Context, env: Scopes<Symbol>, vars: Scopes<Value>, x: string, v: Value)
    requires Tree(c.t) && c.me.Obj? && Fits(c, env, vars)
    requires Lookup(env, x) != None && HasType(c, v, Lookup(env, x).value)
    ensures Fits(c, env, Write(vars, x, v))
    decreases |env|
  {
    hide HasType;
    var n := |env| - 1;
    var out := Write(vars, x, v);
    if x in env[n] {
      assert out[..n] == vars[..n];
    } else {
      WriteFits(c, env[..n], vars[..n], x, v);
      assert out[..n] == Write(vars[..n], x, v);
    }
  }

  lemma {:induction false} PushFits(c: Context, env: Scopes<Symbol>, vars: Scopes<Value>, x: string, typ: Symbol, v: Value)
    requires Tree(c.t) && c.me.Obj? && Fits(c, env, vars) && Known(c.t, typ) && HasType(c, v, typ)
    ensures Fits(c, env + [map[x := typ]], vars + [map[x := v]])
  {
    hide HasType;
    var env', vars' := env + [map[x := typ]], vars + [map[x := v]];
    assert env'[..|env|] == env && vars'[..|vars|] == vars;
  }

  lemma {:induction false} PopFits(c: Context, env: Scopes<Symbol>, scope: map<string, Symbol>, vars: Scopes<Value>)
    requires Tree(c.t) && c.me.Obj? && Fits(c, env + [scope], vars)
    ensures vars != [] && Fits(c, env, vars[..|vars| - 1])
  {
    assert (env + [scope])[..|env|] == env;
  }

  // ---------------------------------------------------------------- the scope an initialiser is checked in

  ghost predicate SameFor(e: Expr, env: Scopes<Symbol>, env': Scopes<Symbol>) {
    forall x :: Free(e, x) ==> Lookup(env, x) == Lookup(env', x)
  }

  lemma {:induction false} LookupPushed<T>(env: Scopes<T>, y: string, v: T, x: string)
    ensures Lookup(env + [map[y := v]], x) == if x == y then Some(v) else Lookup(env, x)
  {
    assert (env + [map[y := v]])[..|env|] == env;
  }

  lemma {:induction false} PushedSame(e: Expr, env: Scopes<Symbol>, env': Scopes<Symbol>, y: string, typ: Symbol)
    requires forall x :: x != y && Free(e, x) ==> Lookup(env, x) == Lookup(env', x)
    ensures SameFor(e, env + [map[y := typ]], env' + [map[y := typ]])
  {
    forall x | Free(e, x)
      ensures Lookup(env + [map[y := typ]], x) == Lookup(env' + [map[y := typ]], x)
    {
      LookupPushed(env, y, typ, x);
      LookupPushed(env', y, typ, x);
    }
  }

  /** The verdict on an expression depends only on the types of the names free in it. */
  lemma {:induction false} CheckSame(t: Table, cur: Symbol, env: Scopes<Symbol>, env': Scopes<Symbol>, e: Expr)
    requires Tree(t) && cur in t && SameFor(e, env, env')
    ensures Check(t, cur, env, e) == Check(t, cur, env', e)
    decreases e, 1
  {
    if e.Arith? || e.Compare? || e.Equal? {
      CheckSameTwo(t, cur, env, env', e);
    } else if e.Neg? || e.Not? || e.IsVoid? || e.Assign? {
      CheckSameOne(t, cur, env, env', e);
    } else if e.Cond? || e.Loop? {
      CheckSameTest(t, cur, env, env', e);
    } else if e.Let? || e.Case? || e.Block? {
      CheckSameBinder(t, cur, env, env', e);
    } else if e.Var? {
      assert e.name != "self" ==> Free(e, e.name);
    }
  }

  lemma {:induction false} CheckSameTwo(t: Table, cur: Symbol, env: Scopes<Symbol>, env': Scopes<Symbol>, e: Expr)
    requires Tree(t) && cur in t && SameFor(e, env, env') && (e.Arith? || e.Compare? || e.Equal?)
    ensures Check(t, cur, env, e) == Check(t, cur, env', e)
    decreases e, 0
  {
    hide Both, Lookup, Tree, Basics;
    CheckSame(t, cur, env, env', e.left);
    CheckSame(t, cur, env, env', e.right);
  }

  lemma {:induction false} CheckSameOne(t: Table, cur: Symbol, env: Scopes<Symbol>, env': Scopes<Symbol>, e: Expr)
    requires Tree(t) && cur in t && SameFor(e, env, env') && (e.Neg? || e.Not? || e.IsVoid? || e.Assign?)
    ensures Check(t, cur, env, e) == Check(t, cur, env', e)
    decreases e, 0
  {
    hide Single, AssignRule, Lookup, Tree;
    if e.Assign? {
      assert Free(e, e.name);
      CheckSame(t, cur, env, env', e.value);
    } else {
      CheckSame(t, cur, env, env', e.operand);
    }
  }

  lemma {:induction false} CheckSameTest(t: Table, cur: Symbol, env: Scopes<Symbol>, env': Scopes<Symbol>, e: Expr)
    requires Tree(t) && cur in t && SameFor(e, env, env') && (e.Cond? || e.Loop?)
    ensures Check(t, cur, env, e) == Check(t, cur, env', e)
    decreases e, 0
  {
    hide CondRule, Lookup, Tree;
    CheckSame(t, cur, env, env', e.pred);
    if e.Cond? {
      CheckSame(t, cur, env, env', e.thenExp);
      CheckSame(t, cur, env, env', e.elseExp);
    } else {
      CheckSame(t, cur, env, env', e.body);
    }
  }

  lemma {:induction false} CheckSameBinder(t: Table, cur: Symbol, env: Scopes<Symbol>, env': Scopes<Symbol>, e: Expr)
    requires Tree(t) && cur in t && SameFor(e, env, env') && (e.Let? || e.Case? || e.Block?)
    ensures Check(t, cur, env, e) == Check(t, cur, env', e)
    decreases e, 0
  {
    hide AncestorOfAll, SamePairs, LetRule, Lookup, Tree;
    match e
    case Case(a, bs) =>
      CheckSame(t, cur, env, env', a);
      CheckSameBranches(t, cur, env, env', bs);
    case Block(es) =>
      CheckSameBlock(t, cur, env, env', es);
    case Let(y, typ, init, body) =>
      PushedSame(init, env, env', y, typ);
      PushedSame(body, env, env', y, typ);
      CheckSame(t, cur, env + [map[y := typ]], env' + [map[y := typ]], init);
      CheckSame(t, cur, env + [map[y := typ]], env' + [map[y := typ]], body);
  }

  lemma {:induction false} CheckSameBlock(t: Table, cur: Symbol, env: Scopes<Symbol>, env': Scopes<Symbol>, es: Exprs)
    requires Tree(t) && cur in t
    requires forall x :: FreeBlock(es, x) ==> Lookup(env, x) == Lookup(env', x)
    ensures CheckBlock(t, cur, env, es) == CheckBlock(t, cur, env', es)
    decreases es, 0
  {
    match es
    case One(e) => CheckSame(t, cur, env, env', e);
    case More(e, rest) =>
      CheckSame(t, cur, env, env', e);
      CheckSameBlock(t, cur, env, env', rest);
  }

  lemma {:induction false} CheckSameBranches(t: Table, cur: Symbol, env: Scopes<Symbol>, env': Scopes<Symbol>,
                                             bs: Branches)
    requires Tree(t) && cur in t
    requires forall x :: FreeBranches(bs, x) ==> Lookup(env, x) == Lookup(env', x)
    ensures CheckBranches(t, cur, env, bs) == CheckBranches(t, cur, env', bs)
    decreases bs, 0
  {
    var b := bs.branch;
    PushedSame(b.body, env, env', b.name, b.declared);
    CheckSame(t, cur, env + [map[b.name := b.declared]], env' + [map[b.name := b.declared]], b.body);
    if bs.And? { CheckSameBranches(t, cur, env, env', bs.others); }
  }

  /** Checked one scope too far in, an initialiser still gets its own verdict if it does not mention the name. */
  lemma {:induction false} InitChecked(t: Table, cur: Symbol, env: Scopes<Symbol>, x: string, typ: Symbol, init: Expr)
    requires Tree(t) && cur in t && (Free(init, x) ==> Lookup(env, x) == Some(typ))
    ensures Check(t, cur, env + [map[x := typ]], init) == Check(t, cur, env, init)
  {
    forall y | Free(init, y)
      ensures Lookup(env + [map[x := typ]], y) == Lookup(env, y)
    {
      LookupPushed(env, x, typ, y);
    }
    CheckSame(t, cur, env + [map[x := typ]], env, init);
  }

  /** No initialiser is judged differently for being checked inside the new scope. */
  ghost predicate ScopeNeverMatters(t: Table, cur: Symbol, env: Scopes<Symbol>, x: string, typ: Symbol)
    requires Tree(t) && cur in t
  {
    forall init :: Check(t, cur, env + [map[x := typ]], init) == Check(t, cur, env, init)
  }

  /** Exactly when the extra scope can never matter: the name already has the declared type outside. */
  lemma {:induction false} LetScopeExact(t: Table, cur: Symbol, env: Scopes<Symbol>, x: string, typ: Symbol)
    requires Tree(t) && cur in t && x != "self"
    ensures ScopeNeverMatters(t, cur, env, x, typ) <==> Lookup(env, x) == Some(typ)
  {
    LookupPushed(env, x, typ, x);
    if Lookup(env, x) == Some(typ) {
      forall init
        ensures Check(t, cur, env + [map[x := typ]], init) == Check(t, cur, env, init)
      {
        InitChecked(t, cur, env, x, typ, init);
      }
    } else {
      VarsDiffer(t, cur, env, x, typ);
    }
  }

  lemma {:induction false} VarsDiffer(t: Table, cur: Symbol, env: Scopes<Symbol>, x: string, typ: Symbol)
    requires Tree(t) && cur in t && x != "self" && Lookup(env, x) != Some(typ)
    ensures Check(t, cur, env + [map[x := typ]], Var(x)) != Check(t, cur, env, Var(x))
  {
    LookupPushed(env, x, typ, x);
    hide Lookup;
  }
}
