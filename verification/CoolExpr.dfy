/**
  COOL expressions without dispatch: what the checker computes for them, and what they evaluate to.
*/
module CoolExpr {
  import opened Common
  import opened CoolClasses

  datatype ArithOp = Plus | Minus | Times | Over
  datatype CompareOp = Less | AtMost

  datatype Expr =
    | Assign(name: string, value: Expr)
    | Cond(pred: Expr, thenExp: Expr, elseExp: Expr)
    | Loop(pred: Expr, body: Expr)
    | Case(scrutinee: Expr, branches: Branches)
    | Block(exprs: Exprs)
    | Let(id: string, declared: Symbol, init: Expr, body: Expr)
    | Arith(op: ArithOp, left: Expr, right: Expr)
    | Neg(operand: Expr)
    | Compare(cmp: CompareOp, left: Expr, right: Expr)
    | Equal(left: Expr, right: Expr)
    | Not(operand: Expr)
    | IntConst(i: int)
    | BoolConst(b: bool)
    | StrConst(s: string)
    | New(cls: Symbol)
    | IsVoid(operand: Expr)
    | NoExpr
    | Var(name: string)

  datatype Exprs = One(only: Expr) | More(first: Expr, others: Exprs)

  datatype Branch = Branch(name: string, declared: Symbol, body: Expr)

  datatype Branches = Last(branch: Branch) | And(branch: Branch, others: Branches)

  /** Nested scopes, the innermost last. */
  type Scopes<T> = seq<map<string, T>>

  function Lookup<T>(scopes: Scopes<T>, x: string): Option<T>
    decreases |scopes|
  {
    if scopes == [] then None
    else
      var n := |scopes| - 1;
      if x in scopes[n] then Some(scopes[n][x]) else Lookup(scopes[..n], x)
  }

  // ---------------------------------------------------------------- the checker

  /**
    The type computed, the errors reported, and whether a class was looked up under a name that is no class:
    what the original does from there on is undefined.
  */
  datatype Checked = Checked(typ: Symbol, errors: nat, lost: bool)

  datatype Answer = Answer(yes: bool, lost: bool)

  /** CheckInheritance */
  function Inherits(t: Table, cur: Symbol, ancestor: Symbol, child: Symbol): Answer
    requires Tree(t) && cur in t
  {
    if ancestor == SelfType || Known(t, child) then Answer(Known(t, child) && Conforms(t, cur, child, ancestor), false)
    else Answer(child == ancestor && child != NoClass, child != ancestor && child != NoClass)
  }

  /** FindCommonAncestor, with its lost lookups. */
  function Ancestor(t: Table, cur: Symbol, a: Symbol, b: Symbol): (Symbol, bool)
    requires Tree(t) && cur in t
  {
    if Known(t, a) && Known(t, b) then (CommonAncestor(t, cur, a, b), false) else (Object, true)
  }

  /** The loop over the branch types, with its lost lookups. */
  function AncestorOfAll(t: Table, cur: Symbol, types: seq<Symbol>): (Symbol, bool)
    requires Tree(t) && cur in t && types != []
    decreases |types|
  {
    var n := |types| - 1;
    if n == 0 then (types[0], false)
    else
      var before := AncestorOfAll(t, cur, types[..n]);
      var j := Ancestor(t, cur, before.0, types[n]);
      (j.0, before.1 || j.1)
  }

  lemma {:induction false} AncestorOfAllKnown(t: Table, cur: Symbol, types: seq<Symbol>)
    requires Tree(t) && cur in t && types != [] && (forall c <- types :: Known(t, c))
    ensures AncestorOfAll(t, cur, types) == (JoinAll(t, cur, types), false)
    decreases |types|
  {
    hide CommonAncestor, Tree;
    var n := |types| - 1;
    if n > 0 { AncestorOfAllKnown(t, cur, types[..n]); }
  }

  function CountOf(xs: seq<Symbol>, x: Symbol): nat {
    if xs == [] then 0 else (if xs[0] == x then 1 else 0) + CountOf(xs[1..], x)
  }

  /** How many pairs of branches declare the same type. */
  function SamePairs(xs: seq<Symbol>): nat {
    if xs == [] then 0 else CountOf(xs[1..], xs[0]) + SamePairs(xs[1..])
  }

  function Decls(bs: Branches): (r: seq<Symbol>)
    ensures r != []
  {
    match bs
    case Last(b) => [b.declared]
    case And(b, rest) => [b.declared] + Decls(rest)
  }

  function Both(l: Checked, r: Checked, good: bool, typ: Symbol): Checked {
    if good then Checked(typ, l.errors + r.errors, l.lost || r.lost)
    else Checked(Object, l.errors + r.errors + 1, l.lost || r.lost)
  }

  function Single(c: Checked, good: bool, typ: Symbol): Checked {
    if good then Checked(typ, c.errors, c.lost) else Checked(Object, c.errors + 1, c.lost)
  }

  function AssignRule(t: Table, cur: Symbol, declared: Option<Symbol>, r: Checked): Checked
    requires Tree(t) && cur in t
  {
    if declared == None then Checked(Object, r.errors + 1, r.lost)
    else
      var a := Inherits(t, cur, declared.value, r.typ);
      if a.yes then Checked(r.typ, r.errors, r.lost || a.lost) else Checked(Object, r.errors + 1, r.lost || a.lost)
  }

  function CondRule(t: Table, cur: Symbol, p: Checked, a: Checked, b: Checked): Checked
    requires Tree(t) && cur in t
  {
    var errors := p.errors + (if p.typ != Bool then 1 else 0) + a.errors + b.errors;
    var lost := p.lost || a.lost || b.lost;
    if b.typ == NoType then Checked(a.typ, errors, lost)
    else
      var j := Ancestor(t, cur, a.typ, b.typ);
      Checked(j.0, errors, lost || j.1)
  }

  function LetRule(t: Table, cur: Symbol, id: string, declared: Symbol, init: Checked, body: Checked): Checked
    requires Tree(t) && cur in t
  {
    var a := if init.typ != NoType then Inherits(t, cur, declared, init.typ) else Answer(true, false);
    Checked(body.typ,
            (if id == "self" then 1 else 0) + init.errors + (if a.yes then 0 else 1) + body.errors,
            init.lost || a.lost || body.lost)
  }

  predicate Basics(l: Symbol, r: Symbol) {
    Leaf(l) || Leaf(r)
  }

  /** CheckExprType, expression by expression. */
  function Check(t: Table, cur: Symbol, env: Scopes<Symbol>, e: Expr): Checked
    requires Tree(t) && cur in t
    decreases e
  {
    match e
    case Assign(x, value) =>
      AssignRule(t, cur, Lookup(env, x), Check(t, cur, env, value))
    case Cond(pred, a, b) =>
      CondRule(t, cur, Check(t, cur, env, pred), Check(t, cur, env, a), Check(t, cur, env, b))
    case Loop(pred, body) =>
      var p, b := Check(t, cur, env, pred), Check(t, cur, env, body);
      Checked(Object, p.errors + (if p.typ != Bool then 1 else 0) + b.errors, p.lost || b.lost)
    case Case(scrutinee, branches) =>
      var s, bs := Check(t, cur, env, scrutinee), CheckBranches(t, cur, env, branches);
      var j := AncestorOfAll(t, cur, bs.types);
      Checked(j.0, s.errors + bs.errors + SamePairs(Decls(branches)), s.lost || bs.lost || j.1)
    case Block(exprs) => CheckBlock(t, cur, env, exprs)
    case Let(x, declared, init, body) =>
      var inner := env + [map[x := declared]];
      LetRule(t, cur, x, declared, Check(t, cur, inner, init), Check(t, cur, inner, body))
    case Arith(_, a, b) =>
      var l, r := Check(t, cur, env, a), Check(t, cur, env, b);
      Both(l, r, l.typ == Int && r.typ == Int, Int)
    case Neg(a) =>
      var c := Check(t, cur, env, a);
      Single(c, c.typ == Int, Int)
    case Compare(_, a, b) =>
      var l, r := Check(t, cur, env, a), Check(t, cur, env, b);
      Both(l, r, l.typ == Int && r.typ == Int, Bool)
    case Equal(a, b) =>
      var l, r := Check(t, cur, env, a), Check(t, cur, env, b);
      Both(l, r, Basics(l.typ, r.typ) ==> l.typ == r.typ, Bool)
    case Not(a) =>
      var c := Check(t, cur, env, a);
      Single(c, c.typ == Bool, Bool)
    case IntConst(_) => Checked(Int, 0, false)
    case BoolConst(_) => Checked(Bool, 0, false)
    case StrConst(_) => Checked(Str, 0, false)
    case New(cls) => Checked(cls, if Known(t, cls) then 0 else 1, false)
    case IsVoid(a) =>
      var c := Check(t, cur, env, a);
      Checked(Bool, c.errors, c.lost)
    case NoExpr => Checked(NoType, 0, false)
    case Var(x) =>
      if x == "self" then Checked(SelfType, 0, false)
      else
        var found := Lookup(env, x);
        if found == None then Checked(Object, 1, false) else Checked(found.value, 0, false)
  }

  function CheckBlock(t: Table, cur: Symbol, env: Scopes<Symbol>, es: Exprs): Checked
    requires Tree(t) && cur in t
    decreases es
  {
    match es
    case One(e) => Check(t, cur, env, e)
    case More(e, rest) =>
      var c, r := Check(t, cur, env, e), CheckBlock(t, cur, env, rest);
      Checked(r.typ, c.errors + r.errors, c.lost || r.lost)
  }

  datatype CheckedBranches = CheckedBranches(types: seq<Symbol>, errors: nat, lost: bool)

  function CheckBranches(t: Table, cur: Symbol, env: Scopes<Symbol>, bs: Branches): (r: CheckedBranches)
    requires Tree(t) && cur in t
    ensures r.types != []
    decreases bs
  {
    var b := bs.branch;
    var c := Check(t, cur, env + [map[b.name := b.declared]], b.body);
    match bs
    case Last(_) => CheckedBranches([c.typ], c.errors, c.lost)
    case And(_, rest) =>
      var r := CheckBranches(t, cur, env, rest);
      CheckedBranches([c.typ] + r.types, c.errors + r.errors, c.lost || r.lost)
  }

  // ---------------------------------------------------------------- what the grammar and the program declare

  /** The declared types are classes, or SELF_TYPE in a let. */
  predicate Declares(t: Table, e: Expr) {
    match e
    case Assign(_, a) => Declares(t, a)
    case Cond(a, b, c) => Declares(t, a) && Declares(t, b) && Declares(t, c)
    case Loop(a, b) => Declares(t, a) && Declares(t, b)
    case Case(a, bs) => Declares(t, a) && DeclaresBranches(t, bs)
    case Block(es) => DeclaresBlock(t, es)
    case Let(_, declared, init, body) => Known(t, declared) && Declares(t, init) && Declares(t, body)
    case Arith(_, a, b) => Declares(t, a) && Declares(t, b)
    case Neg(a) => Declares(t, a)
    case Compare(_, a, b) => Declares(t, a) && Declares(t, b)
    case Equal(a, b) => Declares(t, a) && Declares(t, b)
    case Not(a) => Declares(t, a)
    case IsVoid(a) => Declares(t, a)
    case _ => true
  }

  predicate DeclaresBlock(t: Table, es: Exprs) {
    match es
    case One(e) => Declares(t, e)
    case More(e, rest) => Declares(t, e) && DeclaresBlock(t, rest)
  }

  predicate DeclaresBranches(t: Table, bs: Branches) {
    && bs.branch.declared in t && Declares(t, bs.branch.body)
    && (bs.And? ==> DeclaresBranches(t, bs.others))
  }

  /** COOL's grammar leaves out an expression only after a let's name. */
  predicate Proper(e: Expr) {
    match e
    case Assign(_, a) => Proper(a)
    case Cond(a, b, c) => Proper(a) && Proper(b) && Proper(c)
    case Loop(a, b) => Proper(a) && Proper(b)
    case Case(a, bs) => Proper(a) && ProperBranches(bs)
    case Block(es) => ProperBlock(es)
    case Let(_, _, init, body) => (init == NoExpr || Proper(init)) && Proper(body)
    case Arith(_, a, b) => Proper(a) && Proper(b)
    case Neg(a) => Proper(a)
    case Compare(_, a, b) => Proper(a) && Proper(b)
    case Equal(a, b) => Proper(a) && Proper(b)
    case Not(a) => Proper(a)
    case IsVoid(a) => Proper(a)
    case NoExpr => false
    case _ => true
  }

  predicate ProperBlock(es: Exprs) {
    match es
    case One(e) => Proper(e)
    case More(e, rest) => Proper(e) && ProperBlock(rest)
  }

  predicate ProperBranches(bs: Branches) {
    Proper(bs.branch.body) && (bs.And? ==> ProperBranches(bs.others))
  }

  // ---------------------------------------------------------------- free names

  predicate Free(e: Expr, x: string) {
    match e
    case Assign(y, a) => x == y || Free(a, x)
    case Cond(a, b, c) => Free(a, x) || Free(b, x) || Free(c, x)
    case Loop(a, b) => Free(a, x) || Free(b, x)
    case Case(a, bs) => Free(a, x) || FreeBranches(bs, x)
    case Block(es) => FreeBlock(es, x)
    case Let(y, _, init, body) => Free(init, x) || (x != y && Free(body, x))
    case Arith(_, a, b) => Free(a, x) || Free(b, x)
    case Neg(a) => Free(a, x)
    case Compare(_, a, b) => Free(a, x) || Free(b, x)
    case Equal(a, b) => Free(a, x) || Free(b, x)
    case Not(a) => Free(a, x)
    case IsVoid(a) => Free(a, x)
    case Var(y) => x == y && x != "self"
    case _ => false
  }

  predicate FreeBlock(es: Exprs, x: string) {
    match es
    case One(e) => Free(e, x)
    case More(e, rest) => Free(e, x) || FreeBlock(rest, x)
  }

  predicate FreeBranches(bs: Branches, x: string) {
    || (x != bs.branch.name && Free(bs.branch.body, x))
    || (bs.And? && FreeBranches(bs.others, x))
  }

  /** No initialiser mentions the name its let binds, unless that name means the same type outside. */
  predicate Scoped(env: Scopes<Symbol>, e: Expr)
    decreases e
  {
    match e
    case Assign(_, a) => Scoped(env, a)
    case Cond(a, b, c) => Scoped(env, a) && Scoped(env, b) && Scoped(env, c)
    case Loop(a, b) => Scoped(env, a) && Scoped(env, b)
    case Case(a, bs) => Scoped(env, a) && ScopedBranches(env, bs)
    case Block(es) => ScopedBlock(env, es)
    case Let(x, declared, init, body) =>
      && (Free(init, x) ==> Lookup(env, x) == Some(declared))
      && Scoped(env, init) && Scoped(env + [map[x := declared]], body)
    case Arith(_, a, b) => Scoped(env, a) && Scoped(env, b)
    case Neg(a) => Scoped(env, a)
    case Compare(_, a, b) => Scoped(env, a) && Scoped(env, b)
    case Equal(a, b) => Scoped(env, a) && Scoped(env, b)
    case Not(a) => Scoped(env, a)
    case IsVoid(a) => Scoped(env, a)
    case _ => true
  }

  predicate ScopedBlock(env: Scopes<Symbol>, es: Exprs)
    decreases es
  {
    match es
    case One(e) => Scoped(env, e)
    case More(e, rest) => Scoped(env, e) && ScopedBlock(env, rest)
  }

  predicate ScopedBranches(env: Scopes<Symbol>, bs: Branches)
    decreases bs
  {
    && Scoped(env + [map[bs.branch.name := bs.branch.declared]], bs.branch.body)
    && (bs.And? ==> ScopedBranches(env, bs.others))
  }

  // ---------------------------------------------------------------- evaluation

  datatype Value = Void | IntVal(i: int) | BoolVal(b: bool) | StrVal(s: string) | Obj(cls: Symbol, id: nat)

  datatype State = State(vars: Scopes<Value>, next: nat)

  /** Abort is COOL's own run-time error; Stuck is the failure that type checking is there to rule out. */
  datatype Result = Ok(value: Value, state: State) | Abort | Stuck | Timeout

  function ClassOf(v: Value): Symbol
    requires v != Void
  {
    match v
    case IntVal(_) => Int
    case BoolVal(_) => Bool
    case StrVal(_) => Str
    case Obj(c, _) => c
  }

  /** The value of a variable declared without an initialiser. */
  function Default(c: Symbol): Value {
    if c == Int then IntVal(0) else if c == Bool then BoolVal(false) else if c == Str then StrVal("") else Void
  }

  /** Writing the innermost binding of a name. */
  function Write<T>(vars: Scopes<T>, x: string, v: T): (r: Scopes<T>)
    ensures |r| == |vars|
    decreases |vars|
  {
    if vars == [] then []
    else
      var n := |vars| - 1;
      if x in vars[n] then vars[..n] + [vars[n][x := v]] else Write(vars[..n], x, v) + [vars[n]]
  }

  function Pop(r: Result): Result {
    match r
    case Ok(v, s) => if s.vars == [] then Stuck else Ok(v, s.(vars := s.vars[..|s.vars| - 1]))
    case _ => r
  }

  /** Division towards zero. */
  function Quotient(x: int, y: int): int
    requires y != 0
  {
    if x >= 0 then x / y else -(-x / y)
  }

  function Apply(op: ArithOp, x: int, y: int, s: State): Result {
    match op
    case Plus => Ok(IntVal(x + y), s)
    case Minus => Ok(IntVal(x - y), s)
    case Times => Ok(IntVal(x * y), s)
    case Over => if y == 0 then Abort else Ok(IntVal(Quotient(x, y)), s)
  }

  function InOrder(op: CompareOp, x: int, y: int): bool {
    match op
    case Less => x < y
    case AtMost => x <= y
  }

  function Create(t: Table, cls: Symbol, s: State): Result {
    if cls !in t then Stuck
    else if Leaf(cls) then Ok(Default(cls), s)
    else Ok(Obj(cls, s.next), s.(next := s.next + 1))
  }

  /** The first class from c upwards that some branch declares. */
  function Closest(t: Table, c: Symbol, decls: seq<Symbol>): Option<Symbol>
    requires Tree(t) && c in t
    decreases Depth(t, c)
  {
    if c in decls then Some(c)
    else if c == Object then None
    else (DepthParent(t, c); Closest(t, t[c], decls))
  }

  /** Evaluation with `me` as self. Only another round of a loop costs fuel. */
  function Eval(t: Table, me: Value, s: State, e: Expr, fuel: nat): Result
    requires Tree(t)
    decreases fuel, e, 0
  {
    match e
    case Assign(x, value) =>
      var r := Eval(t, me, s, value, fuel);
      if !r.Ok? then r
      else if Lookup(r.state.vars, x) == None then Stuck
      else Ok(r.value, r.state.(vars := Write(r.state.vars, x, r.value)))
    case Cond(pred, a, b) =>
      var p := Eval(t, me, s, pred, fuel);
      if !p.Ok? then p
      else if !p.value.BoolVal? then Stuck
      else if p.value.b then Eval(t, me, p.state, a, fuel)
      else Eval(t, me, p.state, b, fuel)
    case Loop(pred, body) =>
      var p := Eval(t, me, s, pred, fuel);
      if !p.Ok? then p
      else if !p.value.BoolVal? then Stuck
      else if !p.value.b then Ok(Void, p.state)
      else
        var r := Eval(t, me, p.state, body, fuel);
        if !r.Ok? then r
        else if fuel == 0 then Timeout
        else Eval(t, me, r.state, e, fuel - 1)
    case Case(scrutinee, branches) =>
      var r := Eval(t, me, s, scrutinee, fuel);
      if !r.Ok? then r
      else if r.value == Void then Abort
      else if ClassOf(r.value) !in t then Stuck
      else
        var c := Closest(t, ClassOf(r.value), Decls(branches));
        if c == None then Abort else EvalBranch(t, me, r.state, branches, c.value, r.value, fuel)
    case Block(exprs) => EvalBlock(t, me, s, exprs, fuel)
    case Let(x, declared, init, body) =>
      var r := if init == NoExpr then Ok(Default(declared), s) else Eval(t, me, s, init, fuel);
      if !r.Ok? then r
      else Pop(Eval(t, me, r.state.(vars := r.state.vars + [map[x := r.value]]), body, fuel))
    case Arith(op, a, b) =>
      var l := Eval(t, me, s, a, fuel);
      if !l.Ok? then l
      else
        var r := Eval(t, me, l.state, b, fuel);
        if !r.Ok? then r
        else if l.value.IntVal? && r.value.IntVal? then Apply(op, l.value.i, r.value.i, r.state)
        else Stuck
    case Neg(a) =>
      var r := Eval(t, me, s, a, fuel);
      if !r.Ok? then r else if r.value.IntVal? then Ok(IntVal(-r.value.i), r.state) else Stuck
    case Compare(op, a, b) =>
      var l := Eval(t, me, s, a, fuel);
      if !l.Ok? then l
      else
        var r := Eval(t, me, l.state, b, fuel);
        if !r.Ok? then r
        else if l.value.IntVal? && r.value.IntVal? then Ok(BoolVal(InOrder(op, l.value.i, r.value.i)), r.state)
        else Stuck
    case Equal(a, b) =>
      var l := Eval(t, me, s, a, fuel);
      if !l.Ok? then l
      else
        var r := Eval(t, me, l.state, b, fuel);
        if !r.Ok? then r else Ok(BoolVal(l.value == r.value), r.state)
    case Not(a) =>
      var r := Eval(t, me, s, a, fuel);
      if !r.Ok? then r else if r.value.BoolVal? then Ok(BoolVal(!r.value.b), r.state) else Stuck
    case IntConst(i) => Ok(IntVal(i), s)
    case BoolConst(b) => Ok(BoolVal(b), s)
    case StrConst(text) => Ok(StrVal(text), s)
    case New(cls) =>
      if cls != SelfType then Create(t, cls, s) else if me.Obj? then Create(t, me.cls, s) else Stuck
    case IsVoid(a) =>
      var r := Eval(t, me, s, a, fuel);
      if !r.Ok? then r else Ok(BoolVal(r.value == Void), r.state)
    case NoExpr => Stuck
    case Var(x) =>
      if x == "self" then Ok(me, s)
      else
        var found := Lookup(s.vars, x);
        if found == None then Stuck else Ok(found.value, s)
  }

  function EvalBlock(t: Table, me: Value, s: State, es: Exprs, fuel: nat): Result
    requires Tree(t)
    decreases fuel, es, 0
  {
    match es
    case One(e) => Eval(t, me, s, e, fuel)
    case More(e, rest) =>
      var r := Eval(t, me, s, e, fuel);
      if !r.Ok? then r else EvalBlock(t, me, r.state, rest, fuel)
  }

  /** The first branch that declares class c, on value v. */
  function EvalBranch(t: Table, me: Value, s: State, bs: Branches, c: Symbol, v: Value, fuel: nat): Result
    requires Tree(t)
    decreases fuel, bs, 0
  {
    var b := bs.branch;
    if b.declared == c then Pop(Eval(t, me, s.(vars := s.vars + [map[b.name := v]]), b.body, fuel))
    else if bs.And? then EvalBranch(t, me, s, bs.others, c, v, fuel)
    else Stuck
  }
}
