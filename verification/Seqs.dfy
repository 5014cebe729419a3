/** Slices of concatenated sequences. */
module Seqs {
  lemma DropOf<T>(a: seq<T>, b: seq<T>, k: nat)
    requires k <= |a| + |b|
    ensures (a + b)[k..] == if k <= |a| then a[k..] + b else b[k - |a|..]
  {
  }

  lemma TakeOf<T>(a: seq<T>, b: seq<T>, k: nat)
    requires k <= |a| + |b|
    ensures (a + b)[..k] == if k <= |a| then a[..k] else a + b[..k - |a|]
  {
  }

  lemma PrefixUnder<T>(a: seq<T>, b: seq<T>, c: seq<T>)
    requires b <= c
    ensures a + b <= a + c
  {
  }

  lemma Assoc<T>(a: seq<T>, b: seq<T>, c: seq<T>)
    ensures (a + b) + c == a + (b + c)
  {
  }

  /** The lists of `lo`, `lo + 1`, ... below `hi`, one after the other. */
  function Cat<T>(ls: nat -> seq<T>, lo: nat, hi: nat): seq<T>
    decreases hi - lo
  {
    if lo >= hi then [] else ls(lo) + Cat(ls, lo + 1, hi)
  }

  lemma {:induction false} CatSplit<T>(ls: nat -> seq<T>, lo: nat, mid: nat, hi: nat)
    requires lo <= mid <= hi
    ensures Cat(ls, lo, hi) == Cat(ls, lo, mid) + Cat(ls, mid, hi)
    decreases mid - lo
  {
    if lo < mid {
      CatSplit(ls, lo + 1, mid, hi);
      Assoc(ls(lo), Cat(ls, lo + 1, mid), Cat(ls, mid, hi));
    } else {
      assert [] + Cat(ls, mid, hi) == Cat(ls, mid, hi);
    }
  }

  lemma {:induction false} CatSnoc<T>(ls: nat -> seq<T>, lo: nat, hi: nat)
    requires lo <= hi
    ensures Cat(ls, lo, hi + 1) == Cat(ls, lo, hi) + ls(hi)
  {
    CatSplit(ls, lo, hi, hi + 1);
    assert Cat(ls, hi + 1, hi + 1) == [];
    assert ls(hi) + [] == ls(hi);
  }

  lemma {:induction false} CatSame<T>(f: nat -> seq<T>, g: nat -> seq<T>, lo: nat, hi: nat)
    requires forall d | lo <= d < hi :: f(d) == g(d)
    ensures Cat(f, lo, hi) == Cat(g, lo, hi)
    decreases hi - lo
  {
    if lo < hi {
      CatSame(f, g, lo + 1, hi);
    }
  }

  lemma {:induction false} CatNone<T>(ls: nat -> seq<T>, lo: nat, hi: nat)
    requires forall d | lo <= d < hi :: ls(d) == []
    ensures Cat(ls, lo, hi) == []
    decreases hi - lo
  {
    if lo < hi {
      CatNone(ls, lo + 1, hi);
    }
  }

  /** In which list the k-th element lies, where, and what follows it. */
  lemma {:induction false} CatFind<T>(ls: nat -> seq<T>, lo: nat, hi: nat, k: nat) returns (d: nat, j: nat)
    requires k < |Cat(ls, lo, hi)|
    ensures lo <= d < hi && j < |ls(d)| && Cat(ls, lo, hi)[k] == ls(d)[j]
    ensures k == |Cat(ls, lo, d)| + j
    ensures Cat(ls, lo, hi)[k + 1..] == ls(d)[j + 1..] + Cat(ls, d + 1, hi)
    decreases hi - lo
  {
    DropOf(ls(lo), Cat(ls, lo + 1, hi), k + 1);
    if k < |ls(lo)| {
      d, j := lo, k;
    } else {
      d, j := CatFind(ls, lo + 1, hi, k - |ls(lo)|);
    }
  }

  /** Elements of lists up to `a` stay the first ones when only list `a` grows at its end. */
  lemma {:induction false} CatGrows<T>(f: nat -> seq<T>, g: nat -> seq<T>, lo: nat, hi: nat, a: nat)
    requires lo <= a < hi && f(a) <= g(a) && forall d | lo <= d < a :: f(d) == g(d)
    ensures Cat(f, lo, a + 1) <= Cat(g, lo, hi)
  {
    CatSame(f, g, lo, a);
    CatSnoc(f, lo, a);
    CatSnoc(g, lo, a);
    PrefixUnder(Cat(f, lo, a), f(a), g(a));
    CatSplit(g, lo, a + 1, hi);
  }
}
