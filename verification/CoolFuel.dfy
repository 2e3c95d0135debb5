/** Evaluation is well defined: a result other than a timeout does not depend on the fuel. */
module CoolFuel {
  import opened Common
  import opened CoolClasses
  import opened CoolExpr

  /** What is left to run of a loop whose test came out as p. */
  function LoopOn(t: Table, me: Value, e: Expr, p: Result, fuel: nat): Result
    requires Tree(t) && e.Loop?
  {
    if !p.Ok? then p
    else if !p.value.BoolVal? then Stuck
    else if !p.value.b then Ok(Void, p.state)
    else
      var r := Eval(t, me, p.state, e.body, fuel);
      if !r.Ok? then r else if fuel == 0 then Timeout else Eval(t, me, r.state, e, fuel - 1)
  }

  lemma {:induction false} LoopUnfolds(t: Table, me: Value, s: State, e: Expr, fuel: nat)
    requires Tree(t) && e.Loop?
    ensures Eval(t, me, s, e, fuel) == LoopOn(t, me, e, Eval(t, me, s, e.pred, fuel), fuel)
  {
    hide Tree, Lookup, Closest, Apply, Create;
  }

  function Combine(e: Expr, x: Value, r: Result): Result
    requires e.Arith? || e.Compare? || e.Equal?
  {
    if !r.Ok? then r
    else if e.Equal? then Ok(BoolVal(x == r.value), r.state)
    else if !x.IntVal? || !r.value.IntVal? then Stuck
    else if e.Arith? then Apply(e.op, x.i, r.value.i, r.state)
    else Ok(BoolVal(InOrder(e.cmp, x.i, r.value.i)), r.state)
  }

  function Finish(e: Expr, r: Result): Result
    requires e.Neg? || e.Not? || e.IsVoid? || e.Assign?
  {
    if !r.Ok? then r
    else if e.Neg? then (if r.value.IntVal? then Ok(IntVal(-r.value.i), r.state) else Stuck)
    else if e.Not? then (if r.value.BoolVal? then Ok(BoolVal(!r.value.b), r.state) else Stuck)
    else if e.IsVoid? then Ok(BoolVal(r.value == Void), r.state)
    else if Lookup(r.state.vars, e.name) == None then Stuck
    else Ok(r.value, r.state.(vars := Write(r.state.vars, e.name, r.value)))
  }

  lemma {:induction false} OneUnfolds(t: Table, me: Value, s: State, e: Expr, fuel: nat)
    requires Tree(t) && (e.Neg? || e.Not? || e.IsVoid? || e.Assign?)
    ensures Eval(t, me, s, e, fuel) == Finish(e, Eval(t, me, s, if e.Assign? then e.value else e.operand, fuel))
  {
    hide Tree, Lookup, Write;
  }

  lemma {:induction false} TwoUnfolds(t: Table, me: Value, s: State, e: Expr, fuel: nat)
    requires Tree(t) && (e.Arith? || e.Compare? || e.Equal?)
    ensures var l := Eval(t, me, s, e.left, fuel);
            Eval(t, me, s, e, fuel)
            == if !l.Ok? then l else Combine(e, l.value, Eval(t, me, l.state, e.right, fuel))
  {
    hide Tree, Lookup, Closest, Apply, Create, InOrder;
  }

  lemma {:induction false} MoreFuel(t: Table, me: Value, s: State, e: Expr, f: nat, g: nat)
    requires Tree(t) && f <= g && Eval(t, me, s, e, f) != Timeout
    ensures Eval(t, me, s, e, g) == Eval(t, me, s, e, f)
    decreases f, e, 1
  {
    hide Tree, Lookup, Write, Closest, Create;
    if e.Loop? {
      MoreFuelLoop(t, me, s, e, f, g);
    } else if e.Arith? || e.Compare? || e.Equal? {
      MoreFuelTwo(t, me, s, e, f, g);
    } else if e.Neg? || e.Not? || e.IsVoid? || e.Assign? {
      MoreFuelOne(t, me, s, e, f, g);
    } else if e.Block? {
      MoreFuelBlock(t, me, s, e.exprs, f, g);
    } else if e.Cond? {
      MoreFuelCond(t, me, s, e, f, g);
    } else if e.Let? || e.Case? {
      MoreFuelBinder(t, me, s, e, f, g);
    }
  }

  lemma {:induction false} MoreFuelOne(t: Table, me: Value, s: State, e: Expr, f: nat, g: nat)
    requires Tree(t) && f <= g && Eval(t, me, s, e, f) != Timeout && (e.Neg? || e.Not? || e.IsVoid? || e.Assign?)
    ensures Eval(t, me, s, e, g) == Eval(t, me, s, e, f)
    decreases f, e, 0
  {
    hide Tree, Eval;
    OneUnfolds(t, me, s, e, f);
    OneUnfolds(t, me, s, e, g);
    MoreFuel(t, me, s, if e.Assign? then e.value else e.operand, f, g);
  }

  lemma {:induction false} MoreFuelTwo(t: Table, me: Value, s: State, e: Expr, f: nat, g: nat)
    requires Tree(t) && f <= g && Eval(t, me, s, e, f) != Timeout && (e.Arith? || e.Compare? || e.Equal?)
    ensures Eval(t, me, s, e, g) == Eval(t, me, s, e, f)
    decreases f, e, 0
  {
    hide Tree, Eval, Apply;
    TwoUnfolds(t, me, s, e, f);
    TwoUnfolds(t, me, s, e, g);
    MoreFuel(t, me, s, e.left, f, g);
    var l := Eval(t, me, s, e.left, f);
    if l.Ok? { MoreFuel(t, me, l.state, e.right, f, g); }
  }

  lemma {:induction false} MoreFuelLoop(t: Table, me: Value, s: State, e: Expr, f: nat, g: nat)
    requires Tree(t) && f <= g && Eval(t, me, s, e, f) != Timeout && e.Loop?
    ensures Eval(t, me, s, e, g) == Eval(t, me, s, e, f)
    decreases f, e, 0
  {
    hide Tree, Eval;
    LoopUnfolds(t, me, s, e, f);
    LoopUnfolds(t, me, s, e, g);
    MoreFuel(t, me, s, e.pred, f, g);
    var p := Eval(t, me, s, e.pred, f);
    if p.Ok? && p.value.BoolVal? && p.value.b {
      MoreFuel(t, me, p.state, e.body, f, g);
      var r := Eval(t, me, p.state, e.body, f);
      if r.Ok? { MoreFuel(t, me, r.state, e, f - 1, g - 1); }
    }
  }

  lemma {:induction false} MoreFuelCond(t: Table, me: Value, s: State, e: Expr, f: nat, g: nat)
    requires Tree(t) && f <= g && Eval(t, me, s, e, f) != Timeout && e.Cond?
    ensures Eval(t, me, s, e, g) == Eval(t, me, s, e, f)
    decreases f, e, 0
  {
    hide Tree, Lookup, Write, Closest, Create, Apply;
    MoreFuel(t, me, s, e.pred, f, g);
    var p := Eval(t, me, s, e.pred, f);
    if p.Ok? && p.value.BoolVal? {
      if p.value.b {
        MoreFuel(t, me, p.state, e.thenExp, f, g);
      } else {
        MoreFuel(t, me, p.state, e.elseExp, f, g);
      }
    }
  }

  lemma {:induction false} MoreFuelBinder(t: Table, me: Value, s: State, e: Expr, f: nat, g: nat)
    requires Tree(t) && f <= g && Eval(t, me, s, e, f) != Timeout && (e.Let? || e.Case?)
    ensures Eval(t, me, s, e, g) == Eval(t, me, s, e, f)
    decreases f, e, 0
  {
    hide Tree, Lookup, Write, Closest, Create, Apply;
    match e
    case Case(a, bs) =>
      MoreFuel(t, me, s, a, f, g);
      var r := Eval(t, me, s, a, f);
      if r.Ok? && r.value != Void && ClassOf(r.value) in t {
        var d := Closest(t, ClassOf(r.value), Decls(bs));
        if d != None { MoreFuelBranch(t, me, r.state, bs, d.value, r.value, f, g); }
      }
    case Let(x, declared, init, body) =>
      if init != NoExpr { MoreFuel(t, me, s, init, f, g); }
      var r := if init == NoExpr then Ok(Default(declared), s) else Eval(t, me, s, init, f);
      if r.Ok? { MoreFuel(t, me, r.state.(vars := r.state.vars + [map[x := r.value]]), body, f, g); }
  }

  lemma {:induction false} MoreFuelBlock(t: Table, me: Value, s: State, es: Exprs, f: nat, g: nat)
    requires Tree(t) && f <= g && EvalBlock(t, me, s, es, f) != Timeout
    ensures EvalBlock(t, me, s, es, g) == EvalBlock(t, me, s, es, f)
    decreases f, es, 1
  {
    hide Tree, Eval;
    match es
    case One(e) => MoreFuel(t, me, s, e, f, g);
    case More(e, rest) =>
      MoreFuel(t, me, s, e, f, g);
      var r := Eval(t, me, s, e, f);
      if r.Ok? { MoreFuelBlock(t, me, r.state, rest, f, g); }
  }

  lemma {:induction false} MoreFuelBranch(t: Table, me: Value, s: State, bs: Branches, c: Symbol, v: Value,
                                          f: nat, g: nat)
    requires Tree(t) && f <= g && EvalBranch(t, me, s, bs, c, v, f) != Timeout
    ensures EvalBranch(t, me, s, bs, c, v, g) == EvalBranch(t, me, s, bs, c, v, f)
    decreases f, bs, 1
  {
    hide Tree, Eval;
    var b := bs.branch;
    if b.declared == c {
      MoreFuel(t, me, s.(vars := s.vars + [map[b.name := v]]), b.body, f, g);
    } else if bs.And? {
      MoreFuelBranch(t, me, s, bs.others, c, v, f, g);
    }
  }
}
