/**
  What evaluation means: the operators on numbers, variables, objects and branches; and a program with a loop.
*/
module CoolMeaning {
  import opened CoolClasses
  import opened CoolExpr
  import opened CoolLet
  import opened CoolPreservation
  import opened CoolSound
  import opened Common

  /** The value of an expression that leaves the state as it was. */
  ghost predicate Gives(t: Table, me: Value, s: State, e: Expr, v: Value)
    requires Tree(t)
  {
    forall fuel: nat :: Eval(t, me, s, e, fuel) == Ok(v, s)
  }

  lemma Sums(t: Table, me: Value, s: State, x: int, y: int)
    requires Tree(t)
    ensures Gives(t, me, s, Arith(Plus, IntConst(x), IntConst(y)), IntVal(x + y))
    ensures Gives(t, me, s, Arith(Minus, IntConst(x), IntConst(y)), IntVal(x - y))
    ensures Gives(t, me, s, Arith(Times, IntConst(x), IntConst(y)), IntVal(x * y))
    ensures forall fuel: nat :: Eval(t, me, s, Arith(Over, IntConst(x), IntConst(0)), fuel) == Abort
  {
  }

  lemma Tests(t: Table, me: Value, s: State, x: int, y: int, b: bool)
    requires Tree(t)
    ensures Gives(t, me, s, Neg(IntConst(x)), IntVal(0 - x))
    ensures Gives(t, me, s, Compare(Less, IntConst(x), IntConst(y)), BoolVal(x < y))
    ensures Gives(t, me, s, Compare(AtMost, IntConst(x), IntConst(y)), BoolVal(x <= y))
    ensures Gives(t, me, s, Equal(IntConst(x), IntConst(y)), BoolVal(x == y))
    ensures Gives(t, me, s, Not(BoolConst(b)), BoolVal(!b))
  {
  }

  /** What is left is smaller than the divisor and has the dividend's sign. */
  predicate Truncated(x: int, y: int, q: int) {
    var r := x - q * y;
    && (y > 0 ==> -y < r < y) && (y < 0 ==> y < r < -y)
    && (x >= 0 ==> r >= 0) && (x <= 0 ==> r <= 0)
  }

  lemma Division(t: Table, me: Value, s: State, x: int, y: int)
    requires Tree(t) && y != 0
    ensures exists q: int :: Truncated(x, y, q) && Gives(t, me, s, Arith(Over, IntConst(x), IntConst(y)), IntVal(q))
  {
    var q := Quotient(x, y);
    assert Gives(t, me, s, Arith(Over, IntConst(x), IntConst(y)), IntVal(q));
    if x >= 0 {
      assert x - q * y == x % y;
    } else {
      assert -x == y * (-x / y) + -x % y;
      assert x - q * y == -(-x % y);
    }
  }

  /** A conditional is one of its branches, and a loop whose condition is false is void. */
  lemma Choices(t: Table, me: Value, s: State, a: Expr, b: Expr, fuel: nat)
    requires Tree(t)
    ensures Eval(t, me, s, Cond(BoolConst(true), a, b), fuel) == Eval(t, me, s, a, fuel)
    ensures Eval(t, me, s, Cond(BoolConst(false), a, b), fuel) == Eval(t, me, s, b, fuel)
    ensures Eval(t, me, s, Loop(BoolConst(false), a), fuel) == Ok(Void, s)
  {
  }

  /** An assignment changes its variable, and no other. */
  lemma {:induction false} Assignment(t: Table, me: Value, s: State, x: string, e: Expr, y: string, fuel: nat)
    requires Tree(t) && Eval(t, me, s, e, fuel).Ok? && Lookup(Eval(t, me, s, e, fuel).state.vars, x) != None
    ensures var r, r' := Eval(t, me, s, e, fuel), Eval(t, me, s, Assign(x, e), fuel);
            && r'.Ok? && r'.value == r.value && r'.state.next == r.state.next
            && Lookup(r'.state.vars, y) == if y == x then Some(r.value) else Lookup(r.state.vars, y)
  {
    var r := Eval(t, me, s, e, fuel);
    hide Lookup, Tree, Write;
    LookupWritten(r.state.vars, x, r.value, y);
  }

  /** A variable declared without an initialiser. */
  lemma Defaults(t: Table, me: Value, s: State, x: string, c: Symbol, fuel: nat)
    requires Tree(t) && x != "self"
    ensures var v := if c == Int then IntVal(0) else if c == Bool then BoolVal(false) else if c == Str then StrVal("") else Void;
            && Eval(t, me, s, Let(x, c, NoExpr, Var(x)), fuel) == Ok(v, s)
            && Eval(t, me, s, Let(x, c, NoExpr, IsVoid(Var(x))), fuel) == Ok(BoolVal(v == Void), s)
  {
    var inner := s.(vars := s.vars + [map[x := Default(c)]]);
    assert Lookup(inner.vars, x) == Some(Default(c));
    assert inner.vars[..|inner.vars| - 1] == s.vars;
    assert Eval(t, me, inner, Var(x), fuel) == Ok(Default(c), inner);
    assert Eval(t, me, inner, IsVoid(Var(x)), fuel) == Ok(BoolVal(Default(c) == Void), inner);
  }

  /** Every new object is different from any other; numbers, truth values and strings are no objects. */
  lemma Objects(t: Table, me: Value, s: State, c: Symbol, fuel: nat)
    requires Tree(t) && c in t
    ensures var r := Eval(t, me, s, Equal(New(c), New(c)), fuel);
            r.Ok? && r.value == BoolVal(c == Int || c == Bool || c == Str)
  {
    NewRuns(t, me, s, c, fuel);
    var s' := Create(t, c, s).state;
    NewRuns(t, me, s', c, fuel);
    hide Tree;
    assert Eval(t, me, s, Equal(New(c), New(c)), fuel)
           == Ok(BoolVal(Create(t, c, s).value == Create(t, c, s').value), Create(t, c, s').state) by { hide Create; }
  }

  /** And none is void. */
  lemma NewIsNotVoid(t: Table, me: Value, s: State, c: Symbol, fuel: nat)
    requires Tree(t) && c in t
    ensures Eval(t, me, s, IsVoid(New(c)), fuel) == Ok(BoolVal(false), Create(t, c, s).state)
  {
    NewRuns(t, me, s, c, fuel);
    hide Tree, Create;
  }

  /** new of a name that is no class is what type checking rules out. */
  lemma NoSuchClass(t: Table, me: Value, s: State, c: Symbol, fuel: nat)
    requires Tree(t) && c !in t && c != SelfType
    ensures Eval(t, me, s, New(c), fuel) == Stuck
  {
  }

  // ---------------------------------------------------------------- branches

  function Two(x: string, c: Symbol, i: int, y: string, d: Symbol, j: int): Branches {
    And(Branch(x, c, IntConst(i)), Last(Branch(y, d, IntConst(j))))
  }

  /** Of two branches that an object fits, the closer one is taken, wherever it stands. */
  lemma CloserTaken(t: Table, me: Value, s: State, x: string, y: string, c: Symbol, near: Symbol, far: Symbol, fuel: nat)
    requires Tree(t) && c in t && near in t && near != far && Below(t, c, near) && Below(t, near, far)
    ensures Eval(t, me, s, Case(New(c), Two(x, near, 1, y, far, 2)), fuel) == Ok(IntVal(1), Create(t, c, s).state)
    ensures Eval(t, me, s, Case(New(c), Two(y, far, 2, x, near, 1)), fuel) == Ok(IntVal(1), Create(t, c, s).state)
  {
    Nearest(t, c, near, far);
    NewRuns(t, me, s, c, fuel);
    var v, s' := Create(t, c, s).value, Create(t, c, s).state;
    BranchRuns(t, me, s', x, near, 1, Last(Branch(y, far, IntConst(2))), v, fuel);
    PassedBy(t, me, s', y, far, near, 2, Last(Branch(x, near, IntConst(1))), v, fuel);
    hide Tree, Below, Closest, Create, EvalBranch;
    assert Decls(Two(x, near, 1, y, far, 2)) == [near, far];
    assert Decls(Two(y, far, 2, x, near, 1)) == [far, near];
  }

  lemma NewRuns(t: Table, me: Value, s: State, c: Symbol, fuel: nat)
    requires Tree(t) && c in t
    ensures var r := Create(t, c, s); r.Ok? && Eval(t, me, s, New(c), fuel) == r && r.value != Void && ClassOf(r.value) == c
  {
    assert c != SelfType;
    hide Tree;
  }

  lemma BranchRuns(t: Table, me: Value, s: State, x: string, c: Symbol, i: int, others: Branches, v: Value, fuel: nat)
    requires Tree(t)
    ensures EvalBranch(t, me, s, Last(Branch(x, c, IntConst(i))), c, v, fuel) == Ok(IntVal(i), s)
    ensures EvalBranch(t, me, s, And(Branch(x, c, IntConst(i)), others), c, v, fuel) == Ok(IntVal(i), s)
  {
    hide Tree;
    var inner := s.(vars := s.vars + [map[x := v]]);
    assert inner.vars[..|inner.vars| - 1] == s.vars;
    assert Eval(t, me, inner, IntConst(i), fuel) == Ok(IntVal(i), inner);
  }

  lemma PassedBy(t: Table, me: Value, s: State, y: string, d: Symbol, c: Symbol, j: int, bs: Branches, v: Value, fuel: nat)
    requires Tree(t) && d != c && bs.Last? && bs.branch.declared == c && bs.branch.body == IntConst(1)
    ensures EvalBranch(t, me, s, And(Branch(y, d, IntConst(j)), bs), c, v, fuel) == Ok(IntVal(1), s)
  {
    BranchRuns(t, me, s, bs.branch.name, c, 1, bs, v, fuel);
    hide Tree, Eval;
  }

  lemma Nearest(t: Table, c: Symbol, near: Symbol, far: Symbol)
    requires Tree(t) && c in t && near in t && near != far && Below(t, c, near) && Below(t, near, far)
    ensures Closest(t, c, [near, far]) == Some(near) == Closest(t, c, [far, near])
  {
    ClosestIs(t, c, [near, far]);
    ClosestIs(t, c, [far, near]);
    BelowIn(t, near, far);
    hide Tree, Closest;
    assert near in [near, far] && near in [far, near];
    if Below(t, far, near) { BelowAntisymmetric(t, near, far); }
  }

  /** With no branch for it, or for void, a case is the run-time error. */
  lemma NoBranch(t: Table, me: Value, s: State, x: string, c: Symbol, d: Symbol, e: Expr, fuel: nat)
    requires Tree(t) && c in t && !Below(t, c, d)
    ensures Eval(t, me, s, Case(New(c), Last(Branch(x, d, e))), fuel) == Abort
    ensures Eval(t, me, s, Case(Loop(BoolConst(false), e), Last(Branch(x, d, e))), fuel) == Abort
  {
    ClosestIs(t, c, [d]);
    NewRuns(t, me, s, c, fuel);
    Choices(t, me, s, e, e, fuel);
    hide Tree, Below, Closest, Create, EvalBranch;
    assert Decls(Last(Branch(x, d, e))) == [d];
  }

  // ---------------------------------------------------------------- a program with a loop

  function Factorial(n: nat): nat {
    if n == 0 then 1 else n * Factorial(n - 1)
  }

  /** r <- r * n */
  function Multiply(): Expr {
    Assign("r", Arith(Times, Var("r"), Var("n")))
  }

  /** n <- n - 1 */
  function CountDown(): Expr {
    Assign("n", Arith(Minus, Var("n"), IntConst(1)))
  }

  /** while 0 < n loop { r <- r * n; n <- n - 1; } pool */
  function Rounds(): Expr {
    Loop(Compare(Less, IntConst(0), Var("n")), Block(More(Multiply(), One(CountDown()))))
  }

  /** let n : Int <- k in let r : Int <- 1 in { while ... pool; r; } */
  function FactorialOf(k: nat): Expr {
    Let("n", Int, IntConst(k), InnerLet())
  }

  function InnerLet(): Expr {
    Let("r", Int, IntConst(1), Block(More(Rounds(), One(Var("r")))))
  }

  function With(s: State, n: int, r: int): State {
    s.(vars := s.vars + [map["n" := IntVal(n)]] + [map["r" := IntVal(r)]])
  }

  lemma VarsOf(t: Table, me: Value, s: State, n: int, r: int, fuel: nat)
    requires Tree(t)
    ensures Eval(t, me, With(s, n, r), Var("n"), fuel) == Ok(IntVal(n), With(s, n, r))
    ensures Eval(t, me, With(s, n, r), Var("r"), fuel) == Ok(IntVal(r), With(s, n, r))
    ensures Lookup(With(s, n, r).vars, "n") != None && Lookup(With(s, n, r).vars, "r") != None
  {
    hide Tree;
    var outer := s.vars + [map["n" := IntVal(n)]];
    LookupPushed(outer, "r", IntVal(r), "n");
    LookupPushed(outer, "r", IntVal(r), "r");
    LookupPushed(s.vars, "n", IntVal(n), "n");
  }

  lemma Written(s: State, n: int, r: int, m: int)
    ensures var here := With(s, n, r);
            && here.(vars := Write(here.vars, "n", IntVal(m))) == With(s, m, r)
            && here.(vars := Write(here.vars, "r", IntVal(m))) == With(s, n, m)
  {
    var outer := s.vars + [map["n" := IntVal(n)]];
    var here := With(s, n, r);
    assert here.vars[..|outer|] == outer && outer[..|s.vars|] == s.vars;
    assert map["n" := IntVal(n)]["n" := IntVal(m)] == map["n" := IntVal(m)];
    assert map["r" := IntVal(r)]["r" := IntVal(m)] == map["r" := IntVal(m)];
    assert Write(outer, "n", IntVal(m)) == s.vars + [map["n" := IntVal(m)]];
  }

  lemma MultiplyRuns(t: Table, me: Value, s: State, n: int, r: int, fuel: nat)
    requires Tree(t)
    ensures Eval(t, me, With(s, n, r), Multiply(), fuel) == Ok(IntVal(r * n), With(s, n, r * n))
  {
    VarsOf(t, me, s, n, r, fuel);
    Written(s, n, r, r * n);
    hide Tree, With, Write, Lookup;
    assert Eval(t, me, With(s, n, r), Arith(Times, Var("r"), Var("n")), fuel) == Ok(IntVal(r * n), With(s, n, r));
  }

  lemma CountDownRuns(t: Table, me: Value, s: State, n: int, r: int, fuel: nat)
    requires Tree(t)
    ensures Eval(t, me, With(s, n, r), CountDown(), fuel) == Ok(IntVal(n - 1), With(s, n - 1, r))
  {
    VarsOf(t, me, s, n, r, fuel);
    Written(s, n, r, n - 1);
    hide Tree, With, Write, Lookup;
    assert Eval(t, me, With(s, n, r), Arith(Minus, Var("n"), IntConst(1)), fuel) == Ok(IntVal(n - 1), With(s, n, r));
  }

  lemma BodyRuns(t: Table, me: Value, s: State, n: int, r: int, fuel: nat)
    requires Tree(t)
    ensures Eval(t, me, With(s, n, r), Rounds().body, fuel) == Ok(IntVal(n - 1), With(s, n - 1, r * n))
  {
    MultiplyRuns(t, me, s, n, r, fuel);
    CountDownRuns(t, me, s, n, r * n, fuel);
    hide Tree, With, Multiply, CountDown;
    assert EvalBlock(t, me, With(s, n, r * n), One(CountDown()), fuel) == Ok(IntVal(n - 1), With(s, n - 1, r * n));
  }

  lemma {:induction false} RoundsRun(t: Table, me: Value, s: State, n: nat, r: int, fuel: nat)
    requires Tree(t) && n <= fuel
    ensures Eval(t, me, With(s, n, r), Rounds(), fuel) == Ok(Void, With(s, 0, r * Factorial(n)))
    decreases n
  {
    VarsOf(t, me, s, n, r, fuel);
    assert Eval(t, me, With(s, n, r), Rounds().pred, fuel) == Ok(BoolVal(0 < n), With(s, n, r)) by { hide Tree, With; }
    if n > 0 {
      BodyRuns(t, me, s, n, r, fuel);
      RoundsRun(t, me, s, n - 1, r * n, fuel - 1);
      assert r * n * Factorial(n - 1) == r * Factorial(n);
    }
    hide Tree, With, Factorial;
  }

  /** The program is accepted as an Int, and its value is the factorial: a round of the loop for each of the factors. */
  lemma FactorialRuns(t: Table, cur: Symbol, me: Value, env: Scopes<Symbol>, s: State, k: nat, fuel: nat)
    requires Tree(t) && cur in t && k <= fuel
    ensures Check(t, cur, env, FactorialOf(k)) == Checked(Int, 0, false)
    ensures Eval(t, me, s, FactorialOf(k), fuel) == Ok(IntVal(Factorial(k)), s)
  {
    FactorialTyped(t, cur, env, k);
    InnerRuns(t, me, s, k, fuel);
    hide Tree, Factorial, InnerLet;
    var start := s.(vars := s.vars + [map["n" := IntVal(k)]]);
    assert Eval(t, me, s, IntConst(k), fuel) == Ok(IntVal(k), s);
    var end := s.vars + [map["n" := IntVal(0)]];
    assert end[..|end| - 1] == s.vars;
  }

  lemma InnerRuns(t: Table, me: Value, s: State, k: nat, fuel: nat)
    requires Tree(t) && k <= fuel
    ensures Eval(t, me, s.(vars := s.vars + [map["n" := IntVal(k)]]), InnerLet(), fuel)
            == Ok(IntVal(Factorial(k)), s.(vars := s.vars + [map["n" := IntVal(0)]]))
  {
    LoopThenRead(t, me, s, k, fuel);
    hide Tree, Rounds, Factorial;
    var start := s.(vars := s.vars + [map["n" := IntVal(k)]]);
    assert Eval(t, me, start, IntConst(1), fuel) == Ok(IntVal(1), start);
    var end := With(s, 0, Factorial(k)).vars;
    assert end[..|end| - 1] == s.vars + [map["n" := IntVal(0)]];
  }

  lemma LoopThenRead(t: Table, me: Value, s: State, k: nat, fuel: nat)
    requires Tree(t) && k <= fuel
    ensures Eval(t, me, With(s, k, 1), Block(More(Rounds(), One(Var("r")))), fuel)
            == Ok(IntVal(Factorial(k)), With(s, 0, Factorial(k)))
  {
    RoundsRun(t, me, s, k, 1, fuel);
    VarsOf(t, me, s, 0, Factorial(k), fuel);
    hide Tree, Rounds, Factorial, Lookup, With;
    assert EvalBlock(t, me, With(s, 0, Factorial(k)), One(Var("r")), fuel) == Ok(IntVal(Factorial(k)), With(s, 0, Factorial(k)));
  }

  predicate IsInt(t: Table, cur: Symbol, env: Scopes<Symbol>, e: Expr)
    requires Tree(t) && cur in t
  {
    Check(t, cur, env, e) == Checked(Int, 0, false)
  }

  lemma IntFits(t: Table, cur: Symbol)
    requires Tree(t) && cur in t
    ensures Inherits(t, cur, Int, Int) == Answer(true, false)
  {
  }

  lemma ArithIsInt(t: Table, cur: Symbol, env: Scopes<Symbol>, op: ArithOp, a: Expr, b: Expr)
    requires Tree(t) && cur in t && IsInt(t, cur, env, a) && IsInt(t, cur, env, b)
    ensures IsInt(t, cur, env, Arith(op, a, b))
  {
    hide Tree, Lookup, CheckBlock, CheckBranches, AssignRule, CondRule, LetRule, AncestorOfAll, SamePairs, Known;
  }

  lemma CompareChecks(t: Table, cur: Symbol, env: Scopes<Symbol>, a: Expr, b: Expr)
    requires Tree(t) && cur in t && IsInt(t, cur, env, a) && IsInt(t, cur, env, b)
    ensures Check(t, cur, env, Compare(Less, a, b)) == Checked(Bool, 0, false)
  {
    hide Tree, Lookup, CheckBlock, CheckBranches, AssignRule, CondRule, LetRule, AncestorOfAll, SamePairs, Known;
  }

  lemma AssignIsInt(t: Table, cur: Symbol, env: Scopes<Symbol>, x: string, a: Expr)
    requires Tree(t) && cur in t && IsInt(t, cur, env, a) && Lookup(env, x) == Some(Int)
    ensures IsInt(t, cur, env, Assign(x, a))
  {
    IntFits(t, cur);
    hide Tree, Lookup, Inherits, CheckBlock, CheckBranches, CondRule, LetRule, AncestorOfAll, SamePairs, Known;
  }

  lemma NamesAreInt(t: Table, cur: Symbol, env: Scopes<Symbol>, i: int)
    requires Tree(t) && cur in t && Lookup(env, "n") == Some(Int) && Lookup(env, "r") == Some(Int)
    ensures IsInt(t, cur, env, Var("n")) && IsInt(t, cur, env, Var("r")) && IsInt(t, cur, env, IntConst(i))
  {
    hide Tree, Lookup;
  }

  lemma PairIsInt(t: Table, cur: Symbol, env: Scopes<Symbol>, typ: Symbol, a: Expr, b: Expr)
    requires Tree(t) && cur in t && Check(t, cur, env, a) == Checked(typ, 0, false) && IsInt(t, cur, env, b)
    ensures IsInt(t, cur, env, Block(More(a, One(b))))
  {
    hide Tree;
    assert CheckBlock(t, cur, env, One(b)) == Checked(Int, 0, false);
    assert CheckBlock(t, cur, env, More(a, One(b))) == Checked(Int, 0, false);
  }

  lemma LetIsInt(t: Table, cur: Symbol, env: Scopes<Symbol>, x: string, i: int, b: Expr)
    requires Tree(t) && cur in t && x != "self" && IsInt(t, cur, env + [map[x := Int]], b)
    ensures IsInt(t, cur, env, Let(x, Int, IntConst(i), b))
  {
    IntFits(t, cur);
    hide Tree, Inherits;
    assert IsInt(t, cur, env + [map[x := Int]], IntConst(i));
  }

  lemma RoundsTyped(t: Table, cur: Symbol, env: Scopes<Symbol>)
    requires Tree(t) && cur in t && Lookup(env, "n") == Some(Int) && Lookup(env, "r") == Some(Int)
    ensures Check(t, cur, env, Rounds()) == Checked(Object, 0, false)
  {
    NamesAreInt(t, cur, env, 0);
    NamesAreInt(t, cur, env, 1);
    ArithIsInt(t, cur, env, Times, Var("r"), Var("n"));
    ArithIsInt(t, cur, env, Minus, Var("n"), IntConst(1));
    CompareChecks(t, cur, env, IntConst(0), Var("n"));
    AssignIsInt(t, cur, env, "r", Arith(Times, Var("r"), Var("n")));
    AssignIsInt(t, cur, env, "n", Arith(Minus, Var("n"), IntConst(1)));
    PairIsInt(t, cur, env, Int, Multiply(), CountDown());
    LoopChecks(t, cur, env, Rounds().pred, Rounds().body);
  }

  lemma LoopChecks(t: Table, cur: Symbol, env: Scopes<Symbol>, p: Expr, b: Expr)
    requires Tree(t) && cur in t && Check(t, cur, env, p) == Checked(Bool, 0, false) && IsInt(t, cur, env, b)
    ensures Check(t, cur, env, Loop(p, b)) == Checked(Object, 0, false)
  {
    hide Tree;
  }

  lemma FactorialTyped(t: Table, cur: Symbol, env: Scopes<Symbol>, k: nat)
    requires Tree(t) && cur in t
    ensures Check(t, cur, env, FactorialOf(k)) == Checked(Int, 0, false)
  {
    var inner := env + [map["n" := Int]];
    var both := inner + [map["r" := Int]];
    LookupPushed(inner, "r", Int, "n");
    LookupPushed(inner, "r", Int, "r");
    LookupPushed(env, "n", Int, "n");
    hide Tree, Lookup, Check, Rounds;
    RoundsTyped(t, cur, both);
    NamesAreInt(t, cur, both, 0);
    PairIsInt(t, cur, both, Object, Rounds(), Var("r"));
    LetIsInt(t, cur, inner, "r", 1, Block(More(Rounds(), One(Var("r")))));
    LetIsInt(t, cur, env, "n", k, InnerLet());
  }
}
