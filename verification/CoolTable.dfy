/** semant.cc's class table: the constructor and the walks over it. */
module CoolTable {
  import opened CoolClasses
  import opened CoolBuild
  import opened CoolExpr

  class ClassTable {
    var classes: Table
    var errors: nat
    /** curr_class */
    var cur: Symbol

    /** The constructor, on the runs on which it ends. */
    constructor (decls: seq<ClassDecl>)
      requires Spelled(decls) && Construct(decls) != Diverges
      ensures Built(classes, errors) == Construct(decls)
    {
      classes, errors, cur := Basic(), 0, NoClass;
      new;
      hide *;
      ConstructIs(decls);
      var duplicate := InsertAll(decls);
      if !duplicate {
        if Main !in classes { errors := errors + 1; }
        CheckParents(decls);
      }
    }

    method InsertAll(decls: seq<ClassDecl>) returns (duplicate: bool)
      modifies this`classes, this`errors
      ensures Inserted(classes, errors, duplicate) == Insert(old(classes), old(errors), decls)
    {
      var i := 0;
      while i < |decls|
        invariant 0 <= i <= |decls|
        invariant Insert(classes, errors, decls[i..]) == Insert(old(classes), old(errors), decls)
      {
        var d := decls[i];
        assert decls[i..][0] == d && decls[i..][1..] == decls[i + 1..];
        if d.name == SelfType { errors := errors + 1; }
        if d.name !in classes {
          classes := classes[d.name := d.parent];
        } else {
          errors := errors + 1;
          return true;
        }
        i := i + 1;
      }
      assert decls[i..] == [];
      return false;
    }

    method CheckParents(decls: seq<ClassDecl>)
      requires Examine(classes, decls) != Endless
      modifies this`errors, this`cur
      ensures errors == old(errors) + if Examine(classes, decls) == Root then 0 else 1
    {
      var i := 0;
      while i < |decls|
        invariant 0 <= i <= |decls| && errors == old(errors)
        invariant Examine(classes, decls[i..]) == Examine(classes, decls)
      {
        assert decls[i..][0] == decls[i] && decls[i..][1..] == decls[i + 1..];
        var ok := CheckParent(decls[i]);
        if !ok { return; }
        i := i + 1;
      }
      assert decls[i..] == [];
    }

    method CheckParent(d: ClassDecl) returns (ok: bool)
      requires Walk(classes, d.name, d.parent, |classes|) != Endless
      modifies this`errors, this`cur
      ensures ok <==> Walk(classes, d.name, d.parent, |classes|) == Root
      ensures errors == old(errors) + if ok then 0 else 1
    {
      cur := d.name;
      var parent := d.parent;
      ghost var left: nat := |classes|;
      ghost var verdict := Walk(classes, d.name, parent, left);
      while parent != Object && parent != d.name
        invariant Walk(classes, d.name, parent, left) == verdict != Endless
        invariant errors == old(errors)
        decreases left
      {
        if parent !in classes || Uninheritable(parent) {
          errors := errors + 1;
          return false;
        }
        cur := parent;
        parent := classes[cur];
        left := left - 1;
      }
      ok := parent == Object;
      if !ok { errors := errors + 1; }
    }

    /** Also tells whether it would have looked up a class that is not there. */
    method CheckInheritance(ancestor: Symbol, child: Symbol) returns (yes: bool, lost: bool)
      requires Tree(classes) && cur in classes
      ensures Answer(yes, lost) == Inherits(classes, cur, ancestor, child)
    {
      if ancestor == SelfType {
        return child == SelfType, false;
      }
      var c := if child == SelfType then cur else child;
      if c !in classes {
        // The first comparison, before the failing lookup.
        return c != NoClass && c == ancestor, c != NoClass && c != ancestor;
      }
      yes := IsAncestor(ancestor, c);
      return yes, false;
    }

    method IsAncestor(ancestor: Symbol, child: Symbol) returns (yes: bool)
      requires Tree(classes) && child in classes
      ensures yes == Below(classes, child, ancestor)
    {
      var c := child;
      while c != NoClass
        invariant c in classes || c == NoClass
        invariant Below(classes, child, ancestor) <==> c in classes && Below(classes, c, ancestor)
        decreases if c in classes then Depth(classes, c) + 1 else 0
      {
        if c == ancestor {
          return true;
        }
        if c != Object { DepthParent(classes, c); }
        c := classes[c];
      }
      return false;
    }

    method GetInheritancePath(typ: Symbol) returns (path: seq<Symbol>)
      requires Tree(classes) && cur in classes && Known(classes, typ)
      ensures path == Path(classes, Resolve(cur, typ))
    {
      var c := if typ == SelfType then cur else typ;
      ghost var whole := Path(classes, c);
      path := [];
      while c != NoClass
        invariant c in classes || c == NoClass
        invariant whole == (if c in classes then Path(classes, c) else []) + path
        decreases if c in classes then Depth(classes, c) + 1 else 0
      {
        path := [c] + path;
        PathStep(classes, c, path);
        c := classes[c];
      }
    }

    method FindCommonAncestor(type1: Symbol, type2: Symbol) returns (ret: Symbol, lost: bool)
      requires Tree(classes) && cur in classes
      ensures (ret, lost) == Ancestor(classes, cur, type1, type2)
    {
      hide *;
      AncestorIs(classes, cur, type1, type2);
      if !Known(classes, type1) || !Known(classes, type2) {
        // A null class is dereferenced.
        return Object, true;
      }
      JoinIs(classes, Resolve(cur, type1), Resolve(cur, type2));
      var path1 := GetInheritancePath(type1);
      var path2 := GetInheritancePath(type2);
      ret := LastCommon(path1, path2);
      lost := false;
    }

    static method LastCommon(path1: seq<Symbol>, path2: seq<Symbol>) returns (ret: Symbol)
      ensures var k := CommonLen(path1, path2); ret == if k == 0 then Object else path1[k - 1]
    {
      ret := Object;
      var i := 0;
      while i < |path1| && i < |path2|
        invariant 0 <= i <= |path1| && i <= |path2|
        invariant path1[..i] == path2[..i]
        invariant ret == if i == 0 then Object else path1[i - 1]
        decreases |path1| - i
      {
        if path1[i] != path2[i] {
          assert path1[..i + 1][i] != path2[..i + 1][i];
          CommonLenIs(path1, path2, i + 1);
          break;
        }
        ret := path1[i];
        i := i + 1;
      }
      CommonLenIs(path1, path2, i);
    }
  }

  lemma {:induction false} ConstructIs(decls: seq<ClassDecl>)
    ensures var r := Insert(Basic(), 0, decls);
            Construct(decls)
            == if r.duplicate then Built(r.table, r.errors)
               else if Examine(r.table, decls) == Endless then Diverges
               else Built(r.table, r.errors + (if Main in r.table then 0 else 1)
                                   + if Examine(r.table, decls) == Root then 0 else 1)
  {
    hide Insert, Examine, Basic;
  }

  lemma {:induction false} AncestorIs(t: Table, cur: Symbol, a: Symbol, b: Symbol)
    requires Tree(t) && cur in t
    ensures Known(t, a) ==> Resolve(cur, a) in t
    ensures Known(t, b) ==> Resolve(cur, b) in t
    ensures Ancestor(t, cur, a, b)
            == if Known(t, a) && Known(t, b) then (Join(t, Resolve(cur, a), Resolve(cur, b)), false) else (Object, true)
  {
    hide Tree, Join, Below;
  }

  lemma {:induction false} JoinIs(t: Table, a: Symbol, b: Symbol)
    requires Tree(t) && a in t && b in t
    ensures var p, q := Path(t, a), Path(t, b);
            var k := CommonLen(p, q);
            Join(t, a, b) == if k == 0 then Object else p[k - 1]
  {
    hide Tree, Path, CommonLen;
  }

  /** One round of GetInheritancePath: c moves from the part still to come to the front of the path. */
  lemma {:induction false} PathStep(t: Table, c: Symbol, path: seq<Symbol>)
    requires Tree(t) && c in t && path != [] && path[0] == c
    ensures c != Object ==> t[c] in t && Depth(t, c) == Depth(t, t[c]) + 1
    ensures c == Object ==> t[c] == NoClass && NoClass !in t
    ensures Path(t, c) + path[1..] == (if t[c] in t then Path(t, t[c]) else []) + path
  {
    assert path == [c] + path[1..];
    if c != Object { DepthParent(t, c); }
  }
}
