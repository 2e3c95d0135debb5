/** semant.cc's checker: one pass over an expression, with a stack of scopes and an error count updated as it goes. */
module CoolChecker {
  import opened Common
  import opened CoolClasses
  import opened CoolExpr
  import opened CoolTable

  class TypeChecker {
    const classtable: ClassTable
    var attribtable: Scopes<Symbol>
    /** Set once a class has been looked up that does not exist. */
    var lost: bool

    ghost predicate Valid()
      reads this, classtable
    {
      Tree(classtable.classes) && classtable.cur in classtable.classes
    }

    constructor (table: ClassTable, scopes: Scopes<Symbol>)
      requires Tree(table.classes) && table.cur in table.classes
      ensures Valid() && classtable == table && attribtable == scopes && !lost
    {
      classtable, attribtable, lost := table, scopes, false;
    }

    /** What the specification says of e where the checker now stands. */
    ghost function Verdict(e: Expr): Checked
      reads this, classtable
      requires Valid()
    {
      Check(classtable.classes, classtable.cur, attribtable, e)
    }

    /** The counters after a verdict, from what they were. */
    ghost predicate Reported(c: Checked, errors: nat, before: bool)
      reads this, classtable
    {
      classtable.errors == errors + c.errors && lost == (before || c.lost)
    }

    method Complain()
      modifies classtable`errors
      ensures classtable.errors == old(classtable.errors) + 1
    {
      classtable.errors := classtable.errors + 1;
    }

    method CheckExprType(e: Expr) returns (typ: Symbol)
      requires Valid()
      modifies this`attribtable, this`lost, classtable`errors
      ensures Valid() && attribtable == old(attribtable)
      ensures typ == old(Verdict(e)).typ && Reported(old(Verdict(e)), old(classtable.errors), old(lost))
      decreases e, 2
    {
      match e {
        case Assign(_, _) => typ := AssignType(e);
        case Cond(_, _, _) => typ := CondType(e);
        case Loop(_, _) => typ := LoopType(e);
        case Case(_, _) => typ := CaseType(e);
        case Block(exprs) => typ := BlockType(exprs);
        case Let(_, _, _, _) => typ := LetType(e);
        case Arith(_, _, _) => typ := NumbersType(e, Int);
        case Compare(_, _, _) => typ := NumbersType(e, Bool);
        case Equal(_, _) => typ := EqualType(e);
        case Neg(_) => typ := OperandType(e, Int);
        case Not(_) => typ := OperandType(e, Bool);
        case IsVoid(a) =>
          var ignored := CheckExprType(a);
          typ := Bool;
        case IntConst(_) => typ := Int;
        case BoolConst(_) => typ := Bool;
        case StrConst(_) => typ := Str;
        case New(cls) =>
          if cls != SelfType && cls !in classtable.classes { Complain(); }
          typ := cls;
        case NoExpr => typ := NoType;
        case Var(x) =>
          if x == "self" {
            typ := SelfType;
          } else {
            var found := Lookup(attribtable, x);
            if found == None { Complain(); }
            typ := if found == None then Object else found.value;
          }
      }
    }

    method AssignType(e: Expr) returns (typ: Symbol)
      requires Valid() && e.Assign?
      modifies this`attribtable, this`lost, classtable`errors
      ensures Valid() && attribtable == old(attribtable)
      ensures typ == old(Verdict(e)).typ && Reported(old(Verdict(e)), old(classtable.errors), old(lost))
      decreases e, 1
    {
      hide Tree, Inherits, Lookup;
      var lvalue := Lookup(attribtable, e.name);
      var rvalue := CheckExprType(e.value);
      if lvalue == None {
        Complain();
        return Object;
      }
      var yes, unknown := classtable.CheckInheritance(lvalue.value, rvalue);
      lost := lost || unknown;
      if !yes {
        Complain();
        return Object;
      }
      return rvalue;
    }

    method CondType(e: Expr) returns (typ: Symbol)
      requires Valid() && e.Cond?
      modifies this`attribtable, this`lost, classtable`errors
      ensures Valid() && attribtable == old(attribtable)
      ensures typ == old(Verdict(e)).typ && Reported(old(Verdict(e)), old(classtable.errors), old(lost))
      decreases e, 1
    {
      hide Tree, Ancestor, Lookup;
      var pred := CheckExprType(e.pred);
      if pred != Bool { Complain(); }
      var thenType := CheckExprType(e.thenExp);
      var elseType := CheckExprType(e.elseExp);
      if elseType == NoType {
        return thenType;
      }
      var unknown;
      typ, unknown := classtable.FindCommonAncestor(thenType, elseType);
      lost := lost || unknown;
    }

    method LoopType(e: Expr) returns (typ: Symbol)
      requires Valid() && e.Loop?
      modifies this`attribtable, this`lost, classtable`errors
      ensures Valid() && attribtable == old(attribtable)
      ensures typ == old(Verdict(e)).typ && Reported(old(Verdict(e)), old(classtable.errors), old(lost))
      decreases e, 1
    {
      hide Tree, Lookup;
      var pred := CheckExprType(e.pred);
      if pred != Bool { Complain(); }
      var ignored := CheckExprType(e.body);
      return Object;
    }

    method BlockType(es: Exprs) returns (typ: Symbol)
      requires Valid()
      modifies this`attribtable, this`lost, classtable`errors
      ensures Valid() && attribtable == old(attribtable)
      ensures var c := old(CheckBlock(classtable.classes, classtable.cur, attribtable, es));
              typ == c.typ && Reported(c, old(classtable.errors), old(lost))
      decreases es, 1
    {
      hide Tree, Lookup;
      match es {
        case One(e) => typ := CheckExprType(e);
        case More(e, rest) =>
          var ignored := CheckExprType(e);
          typ := BlockType(rest);
      }
    }

    /** A body checked in a scope of its own, with one name. */
    method ScopedType(x: string, declared: Symbol, body: Expr) returns (typ: Symbol)
      requires Valid()
      modifies this`attribtable, this`lost, classtable`errors
      ensures Valid() && attribtable == old(attribtable)
      ensures var c := old(Check(classtable.classes, classtable.cur, attribtable + [map[x := declared]], body));
              typ == c.typ && Reported(c, old(classtable.errors), old(lost))
      decreases body, 3
    {
      hide Tree, Lookup, Check;
      ghost var outside := attribtable;
      attribtable := attribtable + [map[x := declared]];
      typ := CheckExprType(body);
      attribtable := attribtable[..|attribtable| - 1];
      assert attribtable == outside;
    }

    method LetType(e: Expr) returns (typ: Symbol)
      requires Valid() && e.Let?
      modifies this`attribtable, this`lost, classtable`errors
      ensures Valid() && attribtable == old(attribtable)
      ensures typ == old(Verdict(e)).typ && Reported(old(Verdict(e)), old(classtable.errors), old(lost))
      decreases e, 1
    {
      hide Tree, Inherits, Lookup;
      if e.id == "self" { Complain(); }
      ghost var outside := attribtable;
      attribtable := attribtable + [map[e.id := e.declared]];
      var initType := CheckExprType(e.init);
      if initType != NoType {
        var yes, unknown := classtable.CheckInheritance(e.declared, initType);
        lost := lost || unknown;
        if !yes { Complain(); }
      }
      typ := CheckExprType(e.body);
      attribtable := attribtable[..|attribtable| - 1];
      assert attribtable == outside;
    }

    method NumbersType(e: Expr, result: Symbol) returns (typ: Symbol)
      requires Valid() && (e.Arith? || e.Compare?) && result == if e.Arith? then Int else Bool
      modifies this`attribtable, this`lost, classtable`errors
      ensures Valid() && attribtable == old(attribtable)
      ensures typ == old(Verdict(e)).typ && Reported(old(Verdict(e)), old(classtable.errors), old(lost))
      decreases e, 1
    {
      hide Tree, Lookup;
      var l := CheckExprType(e.left);
      var r := CheckExprType(e.right);
      if l != Int || r != Int {
        Complain();
        return Object;
      }
      return result;
    }

    method EqualType(e: Expr) returns (typ: Symbol)
      requires Valid() && e.Equal?
      modifies this`attribtable, this`lost, classtable`errors
      ensures Valid() && attribtable == old(attribtable)
      ensures typ == old(Verdict(e)).typ && Reported(old(Verdict(e)), old(classtable.errors), old(lost))
      decreases e, 1
    {
      hide Tree, Lookup;
      var l := CheckExprType(e.left);
      var r := CheckExprType(e.right);
      if Leaf(l) || Leaf(r) {
        if l != r {
          Complain();
          return Object;
        }
      }
      return Bool;
    }

    method OperandType(e: Expr, wanted: Symbol) returns (typ: Symbol)
      requires Valid() && (e.Neg? || e.Not?) && wanted == if e.Neg? then Int else Bool
      modifies this`attribtable, this`lost, classtable`errors
      ensures Valid() && attribtable == old(attribtable)
      ensures typ == old(Verdict(e)).typ && Reported(old(Verdict(e)), old(classtable.errors), old(lost))
      decreases e, 1
    {
      hide Tree, Lookup;
      typ := CheckExprType(e.operand);
      if typ != wanted {
        Complain();
        return Object;
      }
    }

    method CaseType(e: Expr) returns (typ: Symbol)
      requires Valid() && e.Case?
      modifies this`attribtable, this`lost, classtable`errors
      ensures Valid() && attribtable == old(attribtable)
      ensures typ == old(Verdict(e)).typ && Reported(old(Verdict(e)), old(classtable.errors), old(lost))
      decreases e, 1
    {
      hide Tree, AncestorOfAll, SamePairs, Lookup;
      var ignored := CheckExprType(e.scrutinee);
      var types, decls := BranchTypes(e.branches);
      CountSame(decls);
      typ := JoinTypes(types);
    }

    method BranchTypes(bs: Branches) returns (types: seq<Symbol>, decls: seq<Symbol>)
      requires Valid()
      modifies this`attribtable, this`lost, classtable`errors
      ensures Valid() && attribtable == old(attribtable)
      ensures decls == Decls(bs)
      ensures var c := old(CheckBranches(classtable.classes, classtable.cur, attribtable, bs));
              && types == c.types && classtable.errors == old(classtable.errors) + c.errors
              && lost == (old(lost) || c.lost)
      decreases bs, 1
    {
      hide Tree, Lookup, Check;
      var b := bs.branch;
      var first := ScopedType(b.name, b.declared, b.body);
      types, decls := [first], [b.declared];
      if bs.And? {
        var moreTypes, moreDecls := BranchTypes(bs.others);
        types, decls := types + moreTypes, decls + moreDecls;
      }
    }

    /** One error for each pair of branches that declare the same type. */
    method CountSame(decls: seq<Symbol>)
      requires decls != []
      modifies classtable`errors
      ensures classtable.errors == old(classtable.errors) + SamePairs(decls)
    {
      var i := 0;
      while i < |decls| - 1
        invariant 0 <= i <= |decls| - 1
        invariant classtable.errors + SamePairs(decls[i..]) == old(classtable.errors) + SamePairs(decls)
      {
        assert decls[i..][0] == decls[i] && decls[i..][1..] == decls[i + 1..];
        ghost var errors := classtable.errors;
        var j := i + 1;
        while j < |decls|
          invariant i < j <= |decls|
          invariant classtable.errors + CountOf(decls[j..], decls[i]) == errors + CountOf(decls[i + 1..], decls[i])
        {
          assert decls[j..][0] == decls[j] && decls[j..][1..] == decls[j + 1..];
          if decls[i] == decls[j] { Complain(); }
          j := j + 1;
        }
        i := i + 1;
      }
      assert decls[i..] == [decls[i]];
      assert decls[i..][1..] == [];
    }

    method JoinTypes(types: seq<Symbol>) returns (typ: Symbol)
      requires Valid() && types != []
      modifies this`lost
      ensures var j := AncestorOfAll(classtable.classes, classtable.cur, types);
              typ == j.0 && lost == (old(lost) || j.1)
    {
      hide Tree, Ancestor;
      typ := types[0];
      var i := 1;
      while i < |types|
        invariant 1 <= i <= |types|
        invariant var j := AncestorOfAll(classtable.classes, classtable.cur, types[..i]);
                  typ == j.0 && lost == (old(lost) || j.1)
      {
        assert types[..i + 1][..i] == types[..i];
        var unknown;
        typ, unknown := classtable.FindCommonAncestor(typ, types[i]);
        lost := lost || unknown;
        i := i + 1;
      }
      assert types[..i] == types;
    }
  }
}
