/** From an accepted program to what its expressions may do. */
module CoolProgram {
  import opened CoolClasses
  import opened CoolBuild
  import opened CoolExpr
  import opened CoolSound
  import opened CoolPreservation

  /** The context of an expression in declared class cur, running on an object of class cls. */
  function At(decls: seq<ClassDecl>, cur: Symbol, cls: Symbol, id: nat): Context
    requires Construct(decls).Built?
  {
    Context(Construct(decls).table, cur, Obj(cls, id))
  }

  /** A declared class is no leaf, so nothing below it is. */
  lemma {:induction false} DeclaredRuns(decls: seq<ClassDecl>, cur: Symbol, cls: Symbol, id: nat)
    requires Spelled(decls) && Accepts(decls) && (exists d <- decls :: d.name == cur)
    requires var t := Construct(decls).table; Tree(t) && cur in t && cls in t && Below(t, cls, cur)
    ensures Running(At(decls, cur, cls, id))
  {
    AcceptsExactly(decls);
    hide Tree, Below;
    assert Int in Basic() && Bool in Basic() && Str in Basic();
    var t := Construct(decls).table;
    if Leaf(cls) { LeafParent(t, cls, cur, decls); }
  }

  lemma {:induction false} LeafParent(t: Table, leaf: Symbol, a: Symbol, decls: seq<ClassDecl>)
    requires Tree(t) && Leaf(leaf) && Below(t, leaf, a) && Holds(Basic(), t, decls)
    ensures a == leaf || a == Object
  {
    assert leaf in Basic() && t[leaf] == Basic()[leaf] == Object;
    assert Below(t, Object, a) ==> a == Object;
  }

  /**
    In a program whose class table is built without an error, an expression of a declared class that checks
    without an error runs soundly on every object of that class or a class below it.
  */
  lemma {:induction false} ProgramSound(decls: seq<ClassDecl>, cur: Symbol, cls: Symbol, id: nat,
                     env: Scopes<Symbol>, s: State, e: Expr, fuel: nat)
    requires Spelled(decls) && Accepts(decls) && (exists d <- decls :: d.name == cur)
    requires var t := Construct(decls).table; Tree(t) && cur in t && cls in t && Below(t, cls, cur)
    ensures var c := At(decls, cur, cls, id);
            && Running(c)
            && (Accepted(c, env, e) && Fits(c, env, s.vars) ==> Sound(c, env, TypeOf(c, env, e), Run(c, s, e, fuel)))
  {
    hide Construct, Tree, Below, Check, Fits, Scoped, Declares, Proper, Eval;
    DeclaredRuns(decls, cur, cls, id);
    var c := At(decls, cur, cls, id);
    if Accepted(c, env, e) && Fits(c, env, s.vars) { Preservation(c, env, s, e, fuel); }
  }
}
