/** Random choice of a good candidate: sample two or three different ones, a few times over, and keep the best seen. */
module Selection {
  import opened Numbers
  import opened Results

  predicate Indices(objects: seq<nat>, n: nat) {
    forall i | 0 <= i < |objects| :: objects[i] < n
  }

  /** `best` is at least as good as everything in the sample. */
  predicate Beats(best: nat, objects: seq<nat>, loads: seq<real>)
    requires best < |loads| && Indices(objects, |loads|)
  {
    forall i | 0 <= i < |objects| :: loads[objects[i]] <= loads[best]
  }

  /** The loop that ends both selections: the first object of maximal load, or nothing for an empty sample. */
  method PickBest(objects: seq<nat>, loads: seq<real>) returns (best: Option<nat>)
    requires Indices(objects, |loads|) && NonNegative(loads)
    ensures objects == [] <==> best.None?
    ensures best.Some? ==> best.value in objects && best.value < |loads| && Beats(best.value, objects, loads)
  {
    best := None;
    var bestLoad := -1.0;
    for i := 0 to |objects|
      invariant best.None? <==> i == 0
      invariant best.None? ==> bestLoad == -1.0
      invariant best.Some? ==> best.value in objects && best.value < |loads| && bestLoad == loads[best.value]
      invariant best.Some? ==> Beats(best.value, objects[..i], loads)
    {
      if loads[objects[i]] > bestLoad {
        best := Some(objects[i]);
        bestLoad := loads[objects[i]];
      }
    }
    assert objects[..|objects|] == objects;
  }

  /** Two different random candidates. */
  method TwoIndices(n: nat) returns (i1: nat, i2: nat)
    requires n >= 2
    ensures i1 < n && i2 < n && i1 != i2
  {
    i1 :| 0 <= i1 < n;
    i2 :| 0 <= i2 < n - 1;
    if i2 >= i1 {
      i2 := i2 + 1;
    }
  }

  /** Three different random candidates. */
  method ThreeIndices(n: nat) returns (i1: nat, i2: nat, i3: nat)
    requires n >= 3
    ensures i1 < n && i2 < n && i3 < n && i1 != i2 && i1 != i3 && i2 != i3
  {
    i1 :| 0 <= i1 < n;
    i2 :| 0 <= i2 < n - 1;
    i3 :| 0 <= i3 < n - 2;
    if i2 >= i1 {
      i2 := i2 + 1;
      if i3 >= i1 { i3 := i3 + 1; }
      if i3 >= i2 { i3 := i3 + 1; }
    } else {
      if i3 >= i2 { i3 := i3 + 1; }
      if i3 >= i1 { i3 := i3 + 1; }
    }
  }

  /** Two different candidates are not better than `best`. */
  ghost predicate BeatsTwo(best: nat, loads: seq<real>)
    requires best < |loads|
  {
    exists i, j :: 0 <= i < |loads| && 0 <= j < |loads| && i != j
      && loads[i] <= loads[best] && loads[j] <= loads[best]
  }

  ghost predicate BeatsThree(best: nat, loads: seq<real>)
    requires best < |loads|
  {
    exists i, j, k :: 0 <= i < |loads| && 0 <= j < |loads| && 0 <= k < |loads| && i != j && i != k && j != k
      && loads[i] <= loads[best] && loads[j] <= loads[best] && loads[k] <= loads[best]
  }

  /** Power of two choices: with one candidate, that one; otherwise never worse than two different candidates. */
  method P2C(loads: seq<real>, available: seq<bool>) returns (best: Option<nat>)
    requires |loads| == |available| && NonNegative(loads)
    ensures loads == [] <==> best.None?
    ensures best.Some? ==> best.value < |loads| && (|loads| >= 2 ==> BeatsTwo(best.value, loads))
  {
    var n := |loads|;
    if n < 2 {
      return if n == 0 then None else Some(0);
    }
    var objects: seq<nat> := [];
    for e := 0 to 3
      invariant Indices(objects, n)
      invariant e > 0 ==> |objects| >= 2 && objects[0] != objects[1]
      invariant e == 0 ==> objects == []
    {
      var i1, i2 := TwoIndices(n);
      objects := objects + [i1, i2];
      if available[i1] && available[i2] { break; }
    }
    best := PickBest(objects, loads);
    assert loads[objects[0]] <= loads[best.value] && loads[objects[1]] <= loads[best.value];
  }

  /** Power of three choices, used for more than ten candidates. */
  method P3C(loads: seq<real>, available: seq<bool>) returns (best: Option<nat>)
    requires |loads| == |available| && NonNegative(loads)
    ensures loads == [] <==> best.None?
    ensures best.Some? ==> best.value < |loads| && (|loads| >= 3 ==> BeatsThree(best.value, loads))
  {
    var n := |loads|;
    if n < 3 {
      best := PickBest(seq(n, i => i), loads);
      return;
    }
    var objects: seq<nat> := [];
    for e := 0 to 5
      invariant Indices(objects, n)
      invariant e > 0 ==> |objects| >= 3 && objects[0] != objects[1] && objects[0] != objects[2] && objects[1] != objects[2]
      invariant e == 0 ==> objects == []
    {
      var i1, i2, i3 := ThreeIndices(n);
      objects := objects + [i1, i2, i3];
      if available[i1] && available[i2] && available[i3] { break; }
    }
    best := PickBest(objects, loads);
    assert loads[objects[0]] <= loads[best.value] && loads[objects[1]] <= loads[best.value]
        && loads[objects[2]] <= loads[best.value];
  }

  /** What can be said of any choice: it is at least as good as two different candidates, or three if there are many. */
  ghost predicate Good(best: nat, loads: seq<real>) {
    best < |loads| &&
    (|loads| >= 2 ==> if |loads| > 10 then BeatsThree(best, loads) else BeatsTwo(best, loads))
  }

  method PNC(loads: seq<real>, available: seq<bool>) returns (best: Option<nat>)
    requires |loads| == |available| && NonNegative(loads)
    ensures loads == [] <==> best.None?
    ensures best.Some? ==> Good(best.value, loads)
  {
    if |loads| > 10 {
      best := P3C(loads, available);
    } else {
      best := P2C(loads, available);
    }
  }

  function NotBetter(best: nat, loads: seq<real>): set<nat>
    requires best < |loads|
  {
    set i: nat | i < |loads| && loads[i] <= loads[best]
  }

  /** `s` is at a place that may be chosen. */
  ghost predicate Chosen<T(!new)>(s: T, objects: seq<T>, loads: seq<real>)
    requires |objects| == |loads|
  {
    exists best: nat :: best < |objects| && objects[best] == s && Good(best, loads)
  }

  lemma AtLeast(a: set<nat>, b: set<nat>)
    requires a <= b
    ensures |a| <= |b|
  {
    if a != {} {
      var x :| x in a;
      AtLeast(a - {x}, b - {x});
    }
  }

  /** Two different elements of a set, and a third one if there are three. */
  lemma Different(s: set<nat>) returns (i: nat, j: nat, k: nat)
    requires |s| >= 2
    ensures i in s && j in s && i != j && (|s| >= 3 ==> k in s && k != i && k != j)
  {
    i :| i in s;
    assert |s - {i}| == |s| - 1;
    j :| j in s - {i};
    k := i;
    if |s| >= 3 {
      assert |s - {i, j}| == |s| - |{i, j}|;
      k :| k in s - {i, j};
    }
  }

  /** What a good choice is, by counting: among more than ten candidates at least three, itself included, are not better,
      among fewer at least two, unless there is only one. */
  lemma GoodExactly(best: nat, loads: seq<real>)
    requires best < |loads|
    ensures Good(best, loads)
       <==> |set i: nat | i < |loads| && loads[i] <= loads[best]|
            >= if |loads| > 10 then 3 else if |loads| > 1 then 2 else 1
  {
    var s := NotBetter(best, loads);
    AtLeast({best}, s);
    if |loads| > 1 {
      if Good(best, loads) {
        GoodCounts(best, loads);
      }
      if |s| >= 2 {
        var i, j, k := Different(s);
      }
    }
  }

  lemma GoodCounts(best: nat, loads: seq<real>)
    requires |loads| > 1 && Good(best, loads)
    ensures |NotBetter(best, loads)| >= if |loads| > 10 then 3 else 2
  {
    if |loads| > 10 {
      var i: nat, j: nat, k: nat :| i < |loads| && j < |loads| && k < |loads| && i != j && i != k && j != k
        && loads[i] <= loads[best] && loads[j] <= loads[best] && loads[k] <= loads[best];
      AtLeast({i, j, k}, NotBetter(best, loads));
    } else {
      var i: nat, j: nat :| i < |loads| && j < |loads| && i != j
        && loads[i] <= loads[best] && loads[j] <= loads[best];
      AtLeast({i, j}, NotBetter(best, loads));
    }
  }

  /** So a chosen object is never the only worst of several. */
  lemma ChosenIsNotWorst<T(!new)>(s: T, objects: seq<T>, loads: seq<real>)
    requires |objects| == |loads| && Chosen(s, objects, loads)
    ensures exists best: nat ::
      best < |loads| && objects[best] == s
      && |set i: nat | i < |loads| && loads[i] <= loads[best]|
         >= if |loads| > 10 then 3 else if |loads| > 1 then 2 else 1
  {
    var best: nat :| best < |objects| && objects[best] == s && Good(best, loads);
    GoodExactly(best, loads);
  }

  /** With exactly two candidates the choice is the better one, whatever the random numbers. */
  lemma BestOfTwo(best: nat, loads: seq<real>)
    requires |loads| == 2 && best < 2 && BeatsTwo(best, loads)
    ensures forall i | 0 <= i < 2 :: loads[i] <= loads[best]
  {
    var i, j :| 0 <= i < 2 && 0 <= j < 2 && i != j && loads[i] <= loads[best] && loads[j] <= loads[best];
    assert {i, j} == {0, 1};
  }
}
