/** The sliding median as it runs: a sorted window kept in a power-of-two ring, addressed by logical indices
    that only ever move outwards and may become negative. */
module MedianRing {
  import opened Medians

  predicate PowerOfTwo(n: nat) {
    n == 1 || (n > 0 && n % 2 == 0 && PowerOfTwo(n / 2))
  }

  /** `index & (size - 1)` for a power of two: the index moved by whole turns into 0..size-1. */
  function Slot(index: int, size: nat): (slot: nat)
    requires size > 0
    ensures slot < size
    decreases if index < 0 then size - index else index
  {
    if index < 0 then Slot(index + size, size)
    else if index < size then index
    else Slot(index - size, size)
  }

  lemma {:induction false} SlotIsRemainder(index: int, size: nat)
    requires size > 0
    ensures Slot(index, size) == index % size
    decreases if index < 0 then size - index else index
  {
    if index < 0 {
      SlotIsRemainder(index + size, size);
      TurnKeepsRemainder(index, size);
    } else if index < size {
      RemainderUnique(index, size, 0, index);
    } else {
      SlotIsRemainder(index - size, size);
      TurnKeepsRemainder(index - size, size);
    }
  }

  lemma Multiples(d: int, size: nat)
    ensures d >= 1 ==> d * size >= size
    ensures d <= -1 ==> d * size <= -(size as int)
  {}

  lemma RemainderUnique(a: int, size: nat, q: int, r: nat)
    requires size > 0 && a == q * size + r && r < size
    ensures a % size == r
  {
    Multiples(a / size - q, size);
    assert (a / size - q) * size == r - a % size;
  }

  lemma TurnKeepsRemainder(a: int, size: nat)
    requires size > 0
    ensures (a + size) % size == a % size
  {
    assert a + size == (a / size + 1) * size + a % size;
    RemainderUnique(a + size, size, a / size + 1, a % size);
  }

  lemma RemaindersDiffer(a: int, b: int, size: nat)
    requires size > 0 && a < b < a + size
    ensures a % size != b % size
  {
    var q, r := a / size, a % size;
    if r + (b - a) < size {
      RemainderUnique(b, size, q, r + (b - a));
    } else {
      assert b == (q + 1) * size + (r + (b - a) - size);
      RemainderUnique(b, size, q + 1, r + (b - a) - size);
    }
  }

  lemma SlotsDiffer(a: int, b: int, size: nat)
    requires size > 0 && a < b < a + size
    ensures Slot(a, size) != Slot(b, size)
  {
    SlotIsRemainder(a, size);
    SlotIsRemainder(b, size);
    RemaindersDiffer(a, b, size);
  }

  lemma SlotsAlias(a: int, size: nat)
    requires size > 0
    ensures Slot(a + size, size) == Slot(a, size)
  {
    SlotIsRemainder(a, size);
    SlotIsRemainder(a + size, size);
    TurnKeepsRemainder(a, size);
  }

  function Spliced(w: seq<real>, x: real, p: int): (v: seq<real>)
    requires 0 <= p <= |w|
    ensures |v| == |w| + 1
    ensures forall i | 0 <= i < |v| :: v[i] == if i < p then w[i] else if i == p then x else w[i - 1]
  {
    w[..p] + [x] + w[p..]
  }

  lemma SlideByPoint(w: seq<real>, x: real, p: int, size: nat)
    requires InsertionPoint(w, x, p) && w != [] && |w| <= size
    ensures Slide(w, x, size)
         == var v := Spliced(w, x, p);
            if |w| < size then v else if x > Middle(w) then v[1..] else v[..|w|]
  {
    InsertHere(w, x, p);
  }

  lemma SlideStaysSorted(w: seq<real>, x: real, size: nat)
    requires Sorted(w) && |w| <= size && size > 0
    ensures Sorted(Slide(w, x, size))
  {
    SlideExactly(w, x, size);
  }

  class SlidingMedian {
    const size: nat
    const ring: array<real>
    var from: int
    var to: int

    /** The element at a logical index. */
    function At(index: int): real
      requires ring.Length == size > 0
      reads ring
    {
      ring[Slot(index, size)]
    }

    ghost predicate Shape()
      reads this
    {
      PowerOfTwo(size) && ring.Length == size && 0 <= to - from <= size
    }

    /** The logical indices from `lo` on hold `s`. */
    ghost predicate Holds(lo: int, s: seq<real>)
      requires ring.Length == size > 0
      reads ring
    {
      forall i | 0 <= i < |s| :: At(lo + i) == s[i]
    }

    /** The `n` elements from logical index `lo` on. */
    ghost function Section(lo: int, n: nat): (w: seq<real>)
      requires ring.Length == size > 0
      reads ring
      ensures |w| == n && Holds(lo, w)
    {
      seq(n, i requires 0 <= i < n reads ring => At(lo + i))
    }

    ghost function Window(): (w: seq<real>)
      requires Shape()
      reads this, ring
      ensures |w| == to - from && Holds(from, w)
    {
      Section(from, to - from)
    }

    ghost predicate Valid()
      reads this, ring
    {
      Shape() && Sorted(Window())
    }

    constructor (size: nat)
      requires PowerOfTwo(size)
      ensures Valid() && Window() == [] && this.size == size && fresh(ring)
    {
      this.size := size;
      ring := new real[size];
      from := size;
      to := size;
    }

    lemma SectionIs(lo: int, w: seq<real>)
      requires ring.Length == size > 0 && Holds(lo, w)
      ensures Section(lo, |w|) == w
    {}

    /** One assignment into the ring: every other logical index less than a full turn away keeps its element. */
    method Put(index: int, x: real)
      requires ring.Length == size > 0
      modifies ring
      ensures At(index) == x
      ensures forall j | index - size < j < index + size && j != index :: At(j) == old(At(j))
      ensures At(index + size) == At(index - size) == x
    {
      ring[Slot(index, size)] := x;
      forall j | index - size < j < index + size && j != index
        ensures At(j) == old(At(j))
      {
        if j < index { SlotsDiffer(j, index, size); } else { SlotsDiffer(index, j, size); }
      }
      SlotsAlias(index, size);
      SlotsAlias(index - size, size);
    }

    /** The binary search of both shifts: the first index in lo..hi+1 whose element is not below `x`. */
    method Search(lo: int, hi: int, x: real) returns (p: int)
      requires Valid() && from <= lo <= hi + 1 <= to
      ensures lo <= p <= hi + 1
      ensures forall i | lo <= i < p :: At(i) < x
      ensures forall i | p <= i <= hi :: At(i) >= x
    {
      p := lo;
      var end := hi;
      while p <= end
        invariant lo <= p <= end + 1 <= hi + 1
        invariant forall i | lo <= i < p :: At(i) < x
        invariant forall i | end < i <= hi :: At(i) >= x
        decreases end - p
      {
        var mid := (p + end) / 2;
        Ordered(lo, hi, mid);
        if At(mid) < x {
          p := mid + 1;
        } else {
          end := mid - 1;
        }
      }
    }

    lemma Ordered(lo: int, hi: int, mid: int)
      requires Valid() && from <= lo <= mid <= hi < to
      ensures forall i | lo <= i <= mid :: At(i) <= At(mid)
      ensures forall i | mid <= i <= hi :: At(mid) <= At(i)
    {
      var w := Window();
      assert At(mid) == w[mid - from];
      forall i | lo <= i <= hi
        ensures i <= mid ==> At(i) <= At(mid)
        ensures i >= mid ==> At(mid) <= At(i)
      {
        assert At(i) == w[i - from];
      }
    }

    ghost predicate Full()
      reads this
    {
      to - from == size
    }

    /** Half way through moving up: places above `k` hold their lower neighbour's element, the others their own. */
    ghost predicate Rising(p: int, k: int, w: seq<real>)
      requires Shape() && |w| == to - from
      reads this, ring
    {
      && (k == to ==> Holds(from, w))
      && (forall j | from <= j < to && j <= k && (j == from ==> !Full()) :: At(j) == w[j - from])
      && (forall j | from < j <= to && k < j && p < j :: At(j) == w[j - 1 - from])
    }

    method MoveOneUp(p: int, k: int, ghost w: seq<real>)
      requires Shape() && |w| == to - from && from + (to - from) / 2 < p <= k <= to
      requires Rising(p, k, w)
      modifies ring
      ensures Rising(p, k - 1, w)
    {
      assert At(k - 1) == w[k - 1 - from] by {
        if k == to { assert At(from + (k - 1 - from)) == w[k - 1 - from]; }
      }
      Put(k, At(k - 1));
    }

    /** Moves the elements from the insertion point up to the end one place up, the end first. In a full ring the
        first move overwrites the minimum. */
    method MoveUp(p: int, ghost w: seq<real>)
      requires Shape() && from + (to - from) / 2 < p <= to
      requires |w| == to - from && Holds(from, w)
      modifies ring
      ensures Rising(p, p - 1, w)
    {
      assert Rising(p, to, w) by {
        forall j | from <= j < to ensures At(j) == w[j - from] { assert At(from + (j - from)) == w[j - from]; }
      }
      var k := to;
      while k >= p
        invariant p - 1 <= k <= to && Rising(p, k, w)
        decreases k - p
      {
        MoveOneUp(p, k, w);
        k := k - 1;
      }
    }

    /** Half way through moving down: places below `k` hold their upper neighbour's element, the others their own. */
    ghost predicate Sinking(k: int, w: seq<real>)
      requires Shape() && |w| == to - from
      reads this, ring
    {
      && (k == from - 1 ==> Holds(from, w))
      && (forall j | from - 1 <= j < k && j < to - 1 :: At(j) == w[j + 1 - from])
      && (forall j | from <= j < to && k <= j && (j == to - 1 ==> !Full()) :: At(j) == w[j - from])
    }

    method MoveOneDown(k: int, ghost w: seq<real>)
      requires Shape() && |w| == to - from && from - 1 <= k < to - 2
      requires Sinking(k, w)
      modifies ring
      ensures Sinking(k + 1, w)
    {
      assert At(k + 1) == w[k + 1 - from];
      Put(k, At(k + 1));
    }

    /** Moves the elements from the start down to the insertion point one place down. In a full ring the first move
        overwrites the maximum. */
    method MoveDown(p: int, ghost w: seq<real>)
      requires Shape() && from - 1 <= p < to - 1
      requires |w| == to - from && Holds(from, w)
      modifies ring
      ensures Sinking(p, w)
    {
      assert Sinking(from - 1, w) by {
        forall j | from <= j < to ensures At(j) == w[j - from] { assert At(from + (j - from)) == w[j - from]; }
      }
      var k := from - 1;
      while k < p
        invariant from - 1 <= k <= p && Sinking(k, w)
        decreases p - k
      {
        MoveOneDown(k, w);
        k := k + 1;
      }
    }

    /** The places from `lo` on, but for a gap at `p`, hold the elements of `r`. */
    ghost predicate Gapped(p: int, lo: int, r: seq<real>)
      requires ring.Length == size > 0
      reads ring
    {
      forall j | lo <= j < lo + |r| && j != p :: At(j) == r[j - lo]
    }

    /** Fills the gap. */
    method Fill(p: int, x: real, ghost lo: int, ghost r: seq<real>)
      requires ring.Length == size > 0 && lo <= p < lo + |r| <= lo + size
      requires Gapped(p, lo, r) && r[p - lo] == x
      modifies ring
      ensures Section(lo, |r|) == r
    {
      Put(p, x);
      forall i | 0 <= i < |r|
        ensures At(lo + i) == r[i]
      {
        assert lo + i != p ==> At(lo + i) == old(At(lo + i)) == r[lo + i - lo];
      }
      SectionIs(lo, r);
    }

    /** Where the window starts and how long it is after an insertion above the estimate. */
    ghost function UpperStart(): int
      reads this
    {
      if Full() then from + 1 else from
    }

    /** And otherwise. */
    ghost function LowerStart(): int
      reads this
    {
      from - 1
    }

    ghost function NextLength(): int
      reads this
    {
      if Full() then to - from else to - from + 1
    }

    /** The window after the value has been put at `p`: without its first element if it was full. */
    ghost predicate SplicesUp(w: seq<real>, x: real, p: int, r: seq<real>)
      requires from <= p <= to && |w| == to - from
      reads this
    {
      r == if Full() then Spliced(w, x, p - from)[1..] else Spliced(w, x, p - from)
    }

    ghost predicate SplicesDown(w: seq<real>, x: real, p: int, r: seq<real>)
      requires from <= p <= to && |w| == to - from
      reads this
    {
      r == if Full() then Spliced(w, x, p - from)[..|w|] else Spliced(w, x, p - from)
    }

    lemma GapAbove(p: int, x: real, w: seq<real>, r: seq<real>, lo: int)
      requires Shape() && from < p <= to && |w| == to - from && Rising(p, p - 1, w) && SplicesUp(w, x, p, r)
      requires lo == UpperStart()
      ensures |r| == NextLength() <= size && Gapped(p, lo, r) && lo <= p < lo + |r| && r[p - lo] == x
    {
      var v := Spliced(w, x, p - from);
      forall j | lo <= j < lo + |r| && j != p
        ensures At(j) == r[j - lo]
      {
        assert r[j - lo] == v[j - from];
      }
    }

    lemma GapBelow(p: int, x: real, w: seq<real>, r: seq<real>, lo: int)
      requires Shape() && from <= p < to && |w| == to - from && Sinking(p - 1, w) && SplicesDown(w, x, p, r)
      requires lo == LowerStart()
      ensures |r| == NextLength() <= size && Gapped(p - 1, lo, r) && lo <= p - 1 < lo + |r| && r[p - 1 - lo] == x
    {
      var v := Spliced(w, x, p - from);
      forall j | lo <= j < lo + |r| && j != p - 1
        ensures At(j) == r[j - lo]
      {
        assert r[j - lo] == v[j - lo];
      }
    }

    /** Moves up and fills the gap. Only the first element of a full ring is lost: its minimum. */
    method PlaceUp(p: int, x: real, ghost w: seq<real>, ghost r: seq<real>)
      requires Shape() && from + (to - from) / 2 < p <= to
      requires |w| == to - from && Holds(from, w) && SplicesUp(w, x, p, r)
      modifies ring
      ensures Section(UpperStart(), |r|) == r
    {
      ghost var lo := UpperStart();
      MoveUp(p, w);
      GapAbove(p, x, w, r, lo);
      Fill(p, x, lo, r);
      assert UpperStart() == lo;
    }

    /** Moves down and fills the gap. Only the last element of a full ring is lost: its maximum. */
    method PlaceDown(p: int, x: real, ghost w: seq<real>, ghost r: seq<real>)
      requires Shape() && from <= p < to
      requires |w| == to - from && Holds(from, w) && SplicesDown(w, x, p, r)
      modifies ring
      ensures Section(LowerStart(), |r|) == r
    {
      ghost var lo := LowerStart();
      MoveDown(p - 1, w);
      GapBelow(p, x, w, r, lo);
      Fill(p - 1, x, lo, r);
      assert LowerStart() == lo;
    }

    /** The end moves outwards; the start follows if the ring was full. */
    method AdvanceUp(n: nat, ghost r: seq<real>)
      requires Shape() && n == to - from && |r| == NextLength() && Section(UpperStart(), |r|) == r && Sorted(r)
      modifies this`from, this`to
      ensures Valid() && Window() == r
    {
      to := to + 1;
      if n == size {
        from := from + 1;
      }
    }

    method AdvanceDown(n: nat, ghost r: seq<real>)
      requires Shape() && n == to - from && |r| == NextLength() && Section(LowerStart(), |r|) == r && Sorted(r)
      modifies this`from, this`to
      ensures Valid() && Window() == r
    {
      from := from - 1;
      if n == size {
        to := to - 1;
      }
    }

    /** Above the estimate: the value goes into the upper half; a full window gives up its minimum. */
    method InsertRight(x: real, midpoint: int)
      requires Valid() && to > from && midpoint == from + (to - from) / 2 && x > At(midpoint)
      modifies this, ring
      ensures Valid() && Window() == Slide(old(Window()), x, size)
    {
      ghost var w := Window();
      ghost var r := Slide(w, x, size);
      var p := Search(midpoint + 1, to - 1, x);
      UpperPoint(w, x, p, midpoint);
      SlideStaysSorted(w, x, size);
      PlaceUp(p, x, w, r);
      AdvanceUp(to - from, r);
    }

    /** Not above the estimate: the value goes into the lower half; a full window gives up its maximum. */
    method InsertLeft(x: real, midpoint: int)
      requires Valid() && to > from && midpoint == from + (to - from) / 2 && x <= At(midpoint)
      modifies this, ring
      ensures Valid() && Window() == Slide(old(Window()), x, size)
    {
      ghost var w := Window();
      ghost var r := Slide(w, x, size);
      var p := Search(from, midpoint - 1, x);
      LowerPoint(w, x, p, midpoint);
      SlideStaysSorted(w, x, size);
      PlaceDown(p, x, w, r);
      AdvanceDown(to - from, r);
    }

    lemma UpperPoint(w: seq<real>, x: real, p: int, midpoint: int)
      requires Valid() && w == Window() && midpoint == from + (to - from) / 2 < p <= to && x > At(midpoint)
      requires forall i | midpoint < i < p :: At(i) < x
      requires forall i | p <= i < to :: At(i) >= x
      ensures SplicesUp(w, x, p, Slide(w, x, size))
    {
      var k := p - from;
      Ordered(from, to - 1, midpoint);
      assert InsertionPoint(w, x, k) by {
        forall i | 0 <= i < |w| ensures w[i] == At(from + i) {}
      }
      assert Middle(w) == At(midpoint);
      SlideByPoint(w, x, k, size);
    }

    lemma LowerPoint(w: seq<real>, x: real, p: int, midpoint: int)
      requires Valid() && w == Window() && from <= p <= midpoint == from + (to - from) / 2 < to && x <= At(midpoint)
      requires forall i | from <= i < p :: At(i) < x
      requires forall i | p <= i < midpoint :: At(i) >= x
      ensures SplicesDown(w, x, p, Slide(w, x, size))
    {
      var k := p - from;
      Ordered(from, to - 1, midpoint);
      assert InsertionPoint(w, x, k) by {
        forall i | 0 <= i < |w| ensures w[i] == At(from + i) {}
      }
      assert Middle(w) == At(midpoint);
      SlideByPoint(w, x, k, size);
    }

    /** The ring refines the sorted window. */
    method Insert(x: real)
      requires Valid()
      modifies this, ring
      ensures Valid() && Window() == Slide(old(Window()), x, size)
    {
      if to == from {
        Put(from, x);
        to := to + 1;
        SectionIs(from, [x]);
      } else {
        var midpoint := (from + to) / 2;
        assert midpoint == from + (to - from) / 2;
        if x > At(midpoint) {
          InsertRight(x, midpoint);
        } else {
          InsertLeft(x, midpoint);
        }
      }
    }

    method Estimate() returns (median: real)
      requires Valid()
      ensures median == Medians.Estimate(Window())
      ensures median == if to == from then 0.0 else Window()[(to - from) / 2]
    {
      if to == from {
        median := 0.0;
      } else {
        var midpoint := (from + to) / 2;
        assert midpoint == from + (to - from) / 2;
        median := At(midpoint);
      }
    }
  }
}
