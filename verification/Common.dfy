/** What several of the models share: optional values, and sequences without repetition. */
module Common {
  datatype Option<+T> = None | Some(value: T)

  ghost predicate NoDup<T>(xs: seq<T>) {
    forall i, j :: 0 <= i < j < |xs| ==> xs[i] != xs[j]
  }

  lemma NoDupAppend<T>(xs: seq<T>, ys: seq<T>)
    requires NoDup(xs) && NoDup(ys) && forall y :: y in ys ==> y !in xs
    ensures NoDup(xs + ys)
  {
    forall i, j | 0 <= i < j < |xs + ys|
      ensures (xs + ys)[i] != (xs + ys)[j]
    {
      if i < |xs| <= j { assert ys[j - |xs|] in ys; }
    }
  }

  /** A new element may go to either end. */
  lemma NoDupAdd<T>(xs: seq<T>, x: T)
    requires NoDup(xs) && x !in xs
    ensures NoDup(xs + [x]) && NoDup([x] + xs)
  {
    NoDupAppend(xs, [x]);
    NoDupAppend([x], xs);
  }

  lemma NoDupSplit<T>(xs: seq<T>)
    requires NoDup(xs) && xs != []
    ensures NoDup(xs[1..]) && xs[0] !in xs[1..]
    ensures forall x :: x in xs <==> x == xs[0] || x in xs[1..]
  {
    forall x | x in xs ensures x == xs[0] || x in xs[1..] {
      var i :| 0 <= i < |xs| && xs[i] == x;
      if i > 0 { assert xs[1..][i - 1] == x; }
    }
  }

  lemma {:induction false} NoDupOnce<T>(xs: seq<T>, x: T)
    requires NoDup(xs)
    ensures multiset(xs)[x] <= 1
  {
    if xs != [] {
      NoDupSplit(xs);
      NoDupOnce(xs[1..], x);
      assert xs == [xs[0]] + xs[1..];
    }
  }
}
