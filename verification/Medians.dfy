/** The sliding median: what an insertion does to the sorted window, and the ring that does it in place. */
module Medians {

  predicate Sorted(w: seq<real>) {
    forall i, j | 0 <= i <= j < |w| :: w[i] <= w[j]
  }

  /** Insertion into a sorted sequence, before the first element that is not smaller. */
  function Insert(w: seq<real>, x: real): (r: seq<real>)
    ensures |r| == |w| + 1
  {
    if w == [] || w[0] >= x then [x] + w else [w[0]] + Insert(w[1..], x)
  }

  function Middle(w: seq<real>): real
    requires w != []
  {
    w[|w| / 2]
  }

  function Estimate(w: seq<real>): real {
    if w == [] then 0.0 else Middle(w)
  }

  /** The window after one more value: a full window gives up its minimum when the value is above the estimate,
      its maximum otherwise. */
  function Slide(w: seq<real>, x: real, size: nat): seq<real> {
    var v := Insert(w, x);
    if |w| < size || w == [] then v
    else if x > Middle(w) then v[1..]
    else v[..|w|]
  }

  /** `p` splits `w` into the elements below `x` and the others. */
  predicate InsertionPoint(w: seq<real>, x: real, p: int) {
    && 0 <= p <= |w|
    && (forall i | 0 <= i < p :: w[i] < x)
    && (forall i | p <= i < |w| :: w[i] >= x)
  }

  lemma {:induction false} InsertHere(w: seq<real>, x: real, p: nat)
    requires InsertionPoint(w, x, p)
    ensures Insert(w, x) == w[..p] + [x] + w[p..]
  {
    if p > 0 {
      InsertHere(w[1..], x, p - 1);
      assert w[1..][..p - 1] == w[1..p] && w[1..][p - 1..] == w[p..];
      assert w[..p] == [w[0]] + w[1..p];
    } else if w != [] {
      assert w[0] >= x;
      assert w[..0] + [x] + w[0..] == [x] + w;
    }
  }

  lemma {:induction false} InsertionPointExists(w: seq<real>, x: real) returns (p: nat)
    requires Sorted(w)
    ensures InsertionPoint(w, x, p)
  {
    if w == [] || w[0] >= x {
      p := 0;
    } else {
      assert Sorted(w[1..]);
      var q := InsertionPointExists(w[1..], x);
      p := q + 1;
      forall i | 0 <= i < p
        ensures w[i] < x
      {
        if i > 0 { assert w[i] == w[1..][i - 1]; }
      }
      forall i | p <= i < |w|
        ensures w[i] >= x
      {
        assert w[i] == w[1..][i - 1];
      }
    }
  }

  /** Insertion, element by element. */
  lemma InsertShape(w: seq<real>, x: real) returns (p: nat)
    requires Sorted(w)
    ensures InsertionPoint(w, x, p)
    ensures var v := Insert(w, x);
            && v == w[..p] + [x] + w[p..]
            && (forall i | 0 <= i < p :: v[i] == w[i])
            && v[p] == x
            && (forall i | p < i < |v| :: v[i] == w[i - 1])
  {
    p := InsertionPointExists(w, x);
    InsertHere(w, x, p);
  }

  lemma InsertSorts(w: seq<real>, x: real)
    requires Sorted(w)
    ensures Sorted(Insert(w, x))
  {
    var p := InsertShape(w, x);
    var v := Insert(w, x);
    forall i, j | 0 <= i <= j < |v|
      ensures v[i] <= v[j]
    {
      var i', j' := if i < p then i else i - 1, if j < p then j else j - 1;
      if i == p || j == p {
      } else {
        assert v[i] == w[i'] && v[j] == w[j'];
      }
    }
  }

  lemma {:induction false} InsertContents(w: seq<real>, x: real)
    ensures multiset(Insert(w, x)) == multiset(w) + multiset{x}
  {
    if w == [] || w[0] >= x {
    } else {
      InsertContents(w[1..], x);
      assert w == [w[0]] + w[1..];
    }
  }

  lemma DropFirst(v: seq<real>)
    requires Sorted(v) && v != []
    ensures Sorted(v[1..]) && multiset(v[1..]) == multiset(v) - multiset{v[0]}
  {
    assert v == [v[0]] + v[1..];
  }

  lemma DropLast(v: seq<real>, n: nat)
    requires Sorted(v) && |v| == n + 1
    ensures Sorted(v[..n]) && multiset(v[..n]) == multiset(v) - multiset{v[n]}
  {
    assert v == v[..n] + [v[n]];
  }

  /** One insertion, complete: the window stays sorted and bounded, and its contents change by exactly the new
      value and, once full, by the smallest or largest old one. */
  lemma SlideExactly(w: seq<real>, x: real, size: nat)
    requires Sorted(w) && |w| <= size && size > 0
    ensures var r := Slide(w, x, size);
            && Sorted(r)
            && |r| == (if |w| < size then |w| + 1 else size)
            && (|w| < size ==> multiset(r) == multiset(w) + multiset{x})
            && (|w| == size && x > w[size / 2] ==> multiset(r) == multiset(w) + multiset{x} - multiset{w[0]})
            && (|w| == size && x <= w[size / 2] ==> multiset(r) == multiset(w) + multiset{x} - multiset{w[size - 1]})
  {
    InsertSorts(w, x);
    InsertContents(w, x);
    if |w| == size {
      InsertEnds(w, x);
      if x > Middle(w) {
        DropFirst(Insert(w, x));
      } else {
        DropLast(Insert(w, x), |w|);
      }
    }
  }

  /** A value above the middle does not come first, any other does not come last. */
  lemma InsertEnds(w: seq<real>, x: real)
    requires Sorted(w) && w != []
    ensures x > Middle(w) ==> Insert(w, x)[0] == w[0]
    ensures x <= Middle(w) ==> Insert(w, x)[|w|] == w[|w| - 1]
  {
    var p := InsertShape(w, x);
  }

  predicate Between(a: real, lo: real, hi: real) {
    lo <= a <= hi || hi <= a <= lo
  }

  lemma NewEstimate(w: seq<real>, x: real, size: nat)
    requires w != [] && |w| <= size
    ensures var e, v := Estimate(Slide(w, x, size)), Insert(w, x);
            e == v[|w| / 2] || e == v[|w| / 2 + 1]
  {
    var v, r, m := Insert(w, x), Slide(w, x, size), |w| / 2;
    if |w| < size {
      assert r == v && (|v| / 2 == m || |v| / 2 == m + 1);
    } else if x > Middle(w) {
      assert r == v[1..] && r[m] == v[m + 1];
    } else {
      assert r == v[..|w|] && r[m] == v[m];
    }
  }

  /** Each insertion moves the estimate towards the new value and never past it. */
  lemma EstimateMovesTowards(w: seq<real>, x: real, size: nat)
    requires Sorted(w) && w != [] && |w| <= size
    ensures Between(Estimate(Slide(w, x, size)), Estimate(w), x)
  {
    var p := InsertionPointExists(w, x);
    InsertHere(w, x, p);
    var v := Insert(w, x);
    var m := |w| / 2;
    if x > Middle(w) {
      AboveMiddle(w, x, v, p);
    } else {
      BelowMiddle(w, x, v, p);
    }
    NewEstimate(w, x, size);
  }

  /** What sits in the two candidate places for the new estimate. */
  lemma AboveMiddle(w: seq<real>, x: real, v: seq<real>, p: nat)
    requires w != [] && Sorted(w) && x > Middle(w) && InsertionPoint(w, x, p) && v == w[..p] + [x] + w[p..]
    ensures v[|w| / 2] == Middle(w) && Between(v[|w| / 2 + 1], Middle(w), x)
  {
    var m := |w| / 2;
    assert p > m;
    assert v[m] == w[m];
    assert v[m + 1] == if p == m + 1 then x else w[m + 1];
  }

  lemma BelowMiddle(w: seq<real>, x: real, v: seq<real>, p: nat)
    requires w != [] && Sorted(w) && x <= Middle(w) && InsertionPoint(w, x, p) && v == w[..p] + [x] + w[p..]
    ensures v[|w| / 2 + 1] == Middle(w) && Between(v[|w| / 2], Middle(w), x)
  {
    var m := |w| / 2;
    assert p <= m;
    assert v[m + 1] == w[m];
    assert v[m] == if p == m then x else w[m - 1];
  }

  /// Whole runs

  function Run(xs: seq<real>, size: nat): seq<real> {
    if xs == [] then [] else Slide(Run(xs[..|xs| - 1], size), xs[|xs| - 1], size)
  }

  lemma AddAndDrop(a: multiset<real>, b: multiset<real>, x: real, y: real)
    requires a <= b
    ensures a + multiset{x} - multiset{y} <= b + multiset{x}
  {}

  lemma LastAdded(xs: seq<real>)
    requires xs != []
    ensures multiset(xs) == multiset(xs[..|xs| - 1]) + multiset{xs[|xs| - 1]}
  {
    assert xs == xs[..|xs| - 1] + [xs[|xs| - 1]];
  }

  /** On every run the window is a sorted part of what was inserted; until it has filled up, all of it. */
  lemma {:induction false} RunKeepsWindow(xs: seq<real>, size: nat)
    requires size > 0
    ensures Sorted(Run(xs, size))
    ensures |Run(xs, size)| == if |xs| < size then |xs| else size
    ensures multiset(Run(xs, size)) <= multiset(xs)
    ensures |xs| <= size ==> multiset(Run(xs, size)) == multiset(xs)
  {
    if xs != [] {
      var before, x := xs[..|xs| - 1], xs[|xs| - 1];
      var w := Run(before, size);
      RunKeepsWindow(before, size);
      SlideExactly(w, x, size);
      assert Run(xs, size) == Slide(w, x, size);
      LastAdded(xs);
      if |w| == size {
        AddAndDrop(multiset(w), multiset(before), x, if x > w[size / 2] then w[0] else w[size - 1]);
      }
    }
  }

  function CountBelow(xs: seq<real>, e: real): nat {
    if xs == [] then 0 else (if xs[0] < e then 1 else 0) + CountBelow(xs[1..], e)
  }

  function CountUpTo(xs: seq<real>, e: real): nat {
    if xs == [] then 0 else (if xs[0] <= e then 1 else 0) + CountUpTo(xs[1..], e)
  }

  lemma {:induction false} CountWithout(xs: seq<real>, j: nat, e: real)
    requires j < |xs|
    ensures var rest := xs[..j] + xs[j + 1..];
            && CountBelow(xs, e) == CountBelow(rest, e) + (if xs[j] < e then 1 else 0)
            && CountUpTo(xs, e) == CountUpTo(rest, e) + (if xs[j] <= e then 1 else 0)
  {
    if j > 0 {
      CountWithout(xs[1..], j - 1, e);
      assert (xs[..j] + xs[j + 1..])[1..] == xs[1..][..j - 1] + xs[1..][j..];
    } else {
      assert xs[..j] + xs[j + 1..] == xs[1..];
    }
  }

  lemma TakeOut(xs: seq<real>, j: nat)
    requires j < |xs|
    ensures multiset(xs[..j] + xs[j + 1..]) == multiset(xs) - multiset{xs[j]}
  {
    assert xs == xs[..j] + [xs[j]] + xs[j + 1..];
  }

  /** Counts depend on the contents only. */
  lemma {:induction false} CountsOfPermutation(xs: seq<real>, ys: seq<real>, e: real)
    requires multiset(xs) == multiset(ys)
    ensures CountBelow(xs, e) == CountBelow(ys, e) && CountUpTo(xs, e) == CountUpTo(ys, e)
  {
    if xs == [] {
      assert |multiset(ys)| == 0;
    } else {
      var j := FirstAmong(xs, ys);
      CountsOfPermutation(xs[1..], ys[..j] + ys[j + 1..], e);
      CountWithout(ys, j, e);
    }
  }

  lemma Find(ys: seq<real>, y: real) returns (j: nat)
    requires y in multiset(ys)
    ensures j < |ys| && ys[j] == y
  {
    j :| 0 <= j < |ys| && ys[j] == y;
  }

  /** The first element is somewhere in the other list, and what is left of both has the same contents. */
  lemma FirstAmong(xs: seq<real>, ys: seq<real>) returns (j: nat)
    requires multiset(xs) == multiset(ys) && xs != []
    ensures j < |ys| && ys[j] == xs[0] && multiset(xs[1..]) == multiset(ys[..j] + ys[j + 1..])
  {
    j := Find(ys, xs[0]) by { assert xs[0] in multiset(xs); }
    TakeOut(ys, j);
    TakeOutFirst(xs);
  }

  lemma TakeOutFirst(xs: seq<real>)
    requires xs != []
    ensures multiset(xs[1..]) == multiset(xs) - multiset{xs[0]}
  {
    assert xs == [xs[0]] + xs[1..];
  }

  lemma {:induction false} CountsInSorted(w: seq<real>, k: int, e: real)
    requires forall i | 0 <= i < |w| :: (i <= k ==> w[i] <= e) && (i >= k ==> w[i] >= e)
    requires k < |w|
    ensures k >= 0 ==> CountBelow(w, e) <= k < CountUpTo(w, e)
    ensures k < 0 ==> CountBelow(w, e) == 0
  {
    if w != [] {
      CountsInSorted(w[1..], k - 1, e);
    }
  }

  /** On every run the estimate is the element of rank n/2 of the window. */
  lemma EstimateIsMiddle(xs: seq<real>, size: nat)
    requires xs != [] && size > 0
    ensures var (w, e) := (Run(xs, size), Estimate(Run(xs, size)));
            e in w && CountBelow(w, e) <= |w| / 2 < CountUpTo(w, e)
  {
    var w := Run(xs, size);
    RunKeepsWindow(xs, size);
    CountsInSorted(w, |w| / 2, Middle(w));
  }

  /** Until the window has filled up, the estimate is the element of rank n/2 among everything inserted:
      at most n/2 inserted values are smaller, and more than n/2 are not larger. */
  lemma EstimateIsRank(xs: seq<real>, size: nat)
    requires 0 < |xs| <= size
    ensures var e := Estimate(Run(xs, size));
            CountBelow(xs, e) <= |xs| / 2 < CountUpTo(xs, e)
  {
    var w := Run(xs, size);
    RunKeepsWindow(xs, size);
    CountsInSorted(w, |w| / 2, Middle(w));
    CountsOfPermutation(xs, w, Middle(w));
  }
}
