/** Counting: frames in a pool, and directory entries that still need a table. */
module PageSupply {
  import opened Common
  import opened Paging
  import opened PageAlloc

  lemma InAt(p: Pool, i: nat)
    requires i < |p.bits|
    ensures In(p, PageAt(p, i)) && Index(p, PageAt(p, i)) == i
  {
  }

  lemma CountTaken(p: Pool, i: nat)
    requires Clear(p.bits, i, 1)
    ensures FreeCount(Take(p, i, 1)) == FreeCount(p) - 1
  {
    var before := set k: nat | k < |p.bits| && !p.bits[k];
    var after := set k: nat | k < |p.bits| && !Take(p, i, 1).bits[k];
    assert after == before - {i};
  }

  lemma CountZero(p: Pool)
    ensures FreeCount(p) == 0 <==> Full(p)
  {
    var clear := set k: nat | k < |p.bits| && !p.bits[k];
    if clear == {} {
      forall a: nat
        ensures !Free(p, a)
      {
        if In(p, a) { assert Index(p, a) !in clear; }
      }
    } else {
      var k :| k in clear;
      InAt(p, k);
      assert Free(p, PageAt(p, k));
      assert |clear| != 0;
    }
  }

  lemma CountAll(p: Pool)
    requires forall i | 0 <= i < |p.bits| :: !p.bits[i]
    ensures FreeCount(p) == |p.bits|
  {
    assert (set k: nat | k < |p.bits| && !p.bits[k]) == Below(|p.bits|);
  }

  function Below(n: nat): (r: set<nat>)
    ensures |r| == n && forall k: nat :: k in r <==> k < n
  {
    if n == 0 then {} else Below(n - 1) + {n - 1}
  }

  // ---------------------------------------------------------------- missing tables

  /** s' has the tables of s, and one for v. */
  ghost predicate GainsTable(s: Sys, s': Sys, v: nat) {
    forall i: nat :: i < 1023 ==> (HasTable(s', i) <==> HasTable(s, i) || i == PdeIdx(v))
  }

  /** Mapping the first page takes one from what is missing, if its table was. */
  lemma MissingNext(s: Sys, s': Sys, v: nat, n: nat)
    requires n > 0 && GainsTable(s, s', v) && PdeIdx(v + (n - 1) * PG_SIZE) < 1023
    ensures MissingFor(s, v, n) == MissingFor(s', v + PG_SIZE, n - 1) + (if HasTable(s, PdeIdx(v)) then 0 else 1)
  {
    hide HasTable;
    var e, hi := PdeIdx(v), PdeIdx(v + (n - 1) * PG_SIZE);
    Indices(v, n);
    var before := set i: nat | e <= i <= hi && !HasTable(s, i);
    if n == 1 {
      assert before == if HasTable(s, e) then {} else {e};
    } else {
      var next := PdeIdx(v + PG_SIZE);
      var after := set i: nat | next <= i <= hi && !HasTable(s', i);
      forall i: nat
        ensures i in after <==> i in before && i != e
      {
        if i < 1023 { assert HasTable(s', i) <==> HasTable(s, i) || i == e; }
      }
      assert after == before - {e};
      assert e in before <==> !HasTable(s, e);
      assert v + PG_SIZE + (n - 2) * PG_SIZE == v + (n - 1) * PG_SIZE;
    }
  }

  lemma Indices(v: nat, n: nat)
    requires n > 0
    ensures PdeIdx(v) <= PdeIdx(v + (n - 1) * PG_SIZE)
    ensures n == 1 ==> PdeIdx(v) == PdeIdx(v + (n - 1) * PG_SIZE)
    ensures n > 1 ==> PdeIdx(v) <= PdeIdx(v + PG_SIZE) <= PdeIdx(v) + 1 && PdeIdx(v + PG_SIZE) <= PdeIdx(v + (n - 1) * PG_SIZE)
  {
    if n > 1 { assert (n - 1) * PG_SIZE >= PG_SIZE; }
  }

  /** A first page without its table leaves at least that one missing. */
  lemma MissingFirst(s: Sys, v: nat, n: nat)
    requires n > 0 && !HasTable(s, PdeIdx(v))
    ensures MissingFor(s, v, n) >= 1
  {
    Indices(v, n);
    var missing := set i: nat | PdeIdx(v) <= i <= PdeIdx(v + (n - 1) * PG_SIZE) && !HasTable(s, i);
    assert PdeIdx(v) in missing;
    assert missing != {};
  }

  lemma NothingMissing(s: Sys, v: nat)
    ensures MissingFor(s, v, 0) == 0
  {
  }

  /** What a new entry costs: a frame for its table if that is missing, or page 0 when there is none. */
  ghost predicate AddCost(s: Sys, s': Sys, v: nat) {
    && GainsTable(s, s', v)
    && FreeCount(s.kernelPool)
       == FreeCount(s'.kernelPool) + (if HasTable(s, PdeIdx(v)) || FreeCount(s.kernelPool) == 0 then 0 else 1)
    && (ZeroTable(s') <==> ZeroTable(s) || (!HasTable(s, PdeIdx(v)) && FreeCount(s.kernelPool) == 0))
  }

  /** What a page of the process costs. */
  ghost predicate UserCost(s: Sys, s': Sys, v: nat) {
    AddCost(s, s', v) && FreeCount(s.userPool) == FreeCount(s'.userPool) + 1
  }

  /** The table for v is missing, there is no frame for it, and page 0 is in use. */
  ghost predicate Starved(s: Sys, v: nat) {
    !HasTable(s, PdeIdx(v)) && FreeCount(s.kernelPool) == 0 && ZeroTable(s)
  }

  /** Whether the loop will come up short does not change as it goes, until it does. */
  lemma ShortNext(s: Sys, s': Sys, v: nat, n: nat)
    requires n > 0 && UserCost(s, s', v) && !Starved(s, v)
    requires PdeIdx(v + (Least(n, FreeCount(s.userPool)) - 1) * PG_SIZE) < 1023
    ensures Short(s, User, v, n) <==> Short(s', User, v + PG_SIZE, n - 1)
  {
    hide MissingFor, HasTable, FreeCount, ZeroTable;
    MissingNext(s, s', v, Least(n, FreeCount(s.userPool)));
    assert Least(n, FreeCount(s.userPool)) - 1 == Least(n - 1, FreeCount(s'.userPool));
    if !HasTable(s, PdeIdx(v)) && FreeCount(s.kernelPool) == 0 {
      MissingFirst(s, v, Least(n, FreeCount(s.userPool)));
    }
  }

  lemma StarvedIsShort(s: Sys, v: nat, n: nat)
    requires n > 0 && Starved(s, v) && FreeCount(s.userPool) > 0
    ensures Short(s, User, v, n)
  {
    hide MissingFor, HasTable, FreeCount, ZeroTable;
    MissingFirst(s, v, Least(n, FreeCount(s.userPool)));
  }

  lemma NoPageNotShort(s: Sys, pf: Flags, v: nat, n: nat)
    requires n == 0 || FreeCount(s.userPool) == 0
    ensures !Short(s, pf, v, n)
  {
    NothingMissing(s, v);
    hide MissingFor, FreeCount;
  }

  // ---------------------------------------------------------------- over whole runs

  /** Frames of the kernel pool, and page 0, beyond all the tables that the process can still come to need. */
  ghost function Slack(s: Sys): int {
    FreeCount(s.kernelPool) + (if ZeroTable(s) then 0 else 1) - MissingTables(s, 32, 767)
  }

  /** A page of the process takes nothing from it. */
  lemma SlackUser(s: Sys, s': Sys, v: nat)
    requires UserCost(s, s', v) && !Starved(s, v) && 32 <= PdeIdx(v) < 768
    ensures Slack(s') == Slack(s)
  {
    hide HasTable, FreeCount, ZeroTable, PdeIdx;
    MissingLess(s, s', v);
    hide MissingTables;
  }

  /** A page of the kernel takes one frame. */
  lemma SlackKernel(s: Sys, s': Sys, v: nat)
    requires GainsTable(s, s', v) && HasTable(s, PdeIdx(v)) && (ZeroTable(s') <==> ZeroTable(s))
    requires FreeCount(s.kernelPool) == FreeCount(s'.kernelPool) + 1
    ensures Slack(s') == Slack(s) - 1
  {
    hide HasTable, FreeCount, ZeroTable, PdeIdx;
    MissingLess(s, s', v);
    hide MissingTables;
  }

  lemma MissingLess(s: Sys, s': Sys, v: nat)
    requires GainsTable(s, s', v)
    ensures MissingTables(s', 32, 767)
            == MissingTables(s, 32, 767) - (if 32 <= PdeIdx(v) <= 767 && !HasTable(s, PdeIdx(v)) then 1 else 0)
  {
    hide HasTable, PdeIdx;
    var before := set i: nat | 32 <= i <= 767 && !HasTable(s, i);
    var after := set i: nat | 32 <= i <= 767 && !HasTable(s', i);
    assert after == before - {PdeIdx(v)};
  }

  /** Where there is slack no call comes up short. */
  lemma ShortMeansNoSlack(s: Sys, pf: Flags, v: nat, n: nat)
    requires Short(s, pf, v, n) && 32 <= PdeIdx(v)
    requires n > 0 ==> PdeIdx(v + (n - 1) * PG_SIZE) < 768
    ensures Slack(s) < 0
  {
    hide HasTable, FreeCount, ZeroTable, PdeIdx;
    var m := Least(n, FreeCount(s.userPool));
    if m > 0 {
      LaterIndex(v, m, n);
      var some := set i: nat | PdeIdx(v) <= i <= PdeIdx(v + (m - 1) * PG_SIZE) && !HasTable(s, i);
      var all := set i: nat | 32 <= i <= 767 && !HasTable(s, i);
      assert some <= all;
      SubsetCount(some, all);
    }
  }

  lemma LaterIndex(v: nat, m: nat, n: nat)
    requires 0 < m <= n
    ensures PdeIdx(v + (m - 1) * PG_SIZE) <= PdeIdx(v + (n - 1) * PG_SIZE)
  {
    assert (m - 1) * PG_SIZE <= (n - 1) * PG_SIZE;
  }

  lemma SubsetCount(a: set<nat>, b: set<nat>)
    requires a <= b
    ensures |a| <= |b|
  {
    assert b == a + (b - a);
  }
}
