/** Load estimation of one connection: the sum of the ages of all outstanding requests, kept in constant time,
    combined with the median response time. */
module Weighted {
  import opened Medians
  import opened Numbers
  import opened Results
  import MedianRing

  /// The bookkeeping

  /** Cumulative duration at the last update, time of that update, number of outstanding requests. */
  datatype Account = Account(duration: real, stamp0: real, outstandings: nat)

  function Instantaneous(a: Account, now: real): real {
    a.duration + (now - a.stamp0) * a.outstandings as real
  }

  function Started(a: Account, now: real): Account {
    Account(Instantaneous(a, now), now, a.outstandings + 1)
  }

  /** The idle decay of the prediction restarts the clock of the books; it happens when nothing is outstanding. */
  function Decayed(a: Account, now: real): Account {
    Account(a.duration, now, a.outstandings)
  }

  function Ended(a: Account, start: real, now: real): Account
    requires a.outstandings > 0
  {
    Account(Instantaneous(a, now) - (now - start), now, a.outstandings - 1)
  }

  /// What it stands for

  /** The sum of the ages at time `now` of the requests started at the given times. */
  function Ages(starts: seq<real>, now: real): real {
    if starts == [] then 0.0 else (now - starts[0]) + Ages(starts[1..], now)
  }

  function Without(starts: seq<real>, start: real): (rest: seq<real>)
    requires start in starts
    ensures |rest| == |starts| - 1
    ensures multiset(rest) == multiset(starts) - multiset{start}
  {
    if starts[0] == start then
      assert starts == [starts[0]] + starts[1..];
      starts[1..]
    else
      assert starts == [starts[0]] + starts[1..];
      [starts[0]] + Without(starts[1..], start)
  }

  lemma {:induction false} AgesGrow(starts: seq<real>, t: real, now: real)
    ensures Ages(starts, now) == Ages(starts, t) + (now - t) * |starts| as real
  {
    if starts != [] {
      AgesGrow(starts[1..], t, now);
      var n := |starts[1..]| as real;
      assert (now - t) * (n + 1.0) == (now - t) * n + (now - t);
    }
  }

  lemma {:induction false} AgesWithout(starts: seq<real>, start: real, now: real)
    requires start in starts
    ensures Ages(Without(starts, start), now) == Ages(starts, now) - (now - start)
  {
    if starts[0] != start {
      AgesWithout(starts[1..], start, now);
      assert Without(starts, start)[1..] == Without(starts[1..], start);
    }
  }

  function Sum(xs: seq<real>): real {
    if xs == [] then 0.0 else xs[0] + Sum(xs[1..])
  }

  /** The ages add up to the time gone by for all requests, less their start times. */
  lemma {:induction false} AgesAreAges(starts: seq<real>, now: real)
    ensures Ages(starts, now) == |starts| as real * now - Sum(starts)
  {
    if starts != [] {
      AgesAreAges(starts[1..], now);
      var n := |starts[1..]| as real;
      assert (n + 1.0) * now == n * now + now;
    }
  }

  lemma {:induction false} AgesNonNegative(starts: seq<real>, now: real)
    requires forall i | 0 <= i < |starts| :: starts[i] <= now
    ensures Ages(starts, now) >= 0.0
  {
    if starts != [] {
      AgesNonNegative(starts[1..], now);
    }
  }

  lemma {:induction false} WithoutBounded(starts: seq<real>, start: real, bound: real)
    requires start in starts && forall i | 0 <= i < |starts| :: starts[i] <= bound
    ensures forall i | 0 <= i < |Without(starts, start)| :: Without(starts, start)[i] <= bound
  {
    if starts[0] != start {
      WithoutBounded(starts[1..], start, bound);
    }
  }

  /** The books are right: they describe the requests that are outstanding. */
  predicate Describes(a: Account, starts: seq<real>) {
    a.outstandings == |starts| && a.duration == Ages(starts, a.stamp0)
  }

  /** At any time the constant-time formula is the sum of the ages; in particular 0 when nothing is outstanding. */
  lemma InstantaneousIsAges(a: Account, starts: seq<real>, now: real)
    requires Describes(a, starts)
    ensures Instantaneous(a, now) == Ages(starts, now)
    ensures a.outstandings == 0 ==> Instantaneous(a, now) == 0.0
  {
    AgesGrow(starts, a.stamp0, now);
  }

  lemma {:induction false} AgesOfNewest(starts: seq<real>, now: real)
    ensures Ages(starts + [now], now) == Ages(starts, now)
  {
    if starts == [] {
      assert (starts + [now])[1..] == [];
    } else {
      AgesOfNewest(starts[1..], now);
      assert (starts + [now])[1..] == starts[1..] + [now];
    }
  }

  lemma StartKeepsBooks(a: Account, starts: seq<real>, now: real)
    requires Describes(a, starts)
    ensures Describes(Started(a, now), starts + [now])
  {
    InstantaneousIsAges(a, starts, now);
    AgesOfNewest(starts, now);
  }

  lemma EndKeepsBooks(a: Account, starts: seq<real>, start: real, now: real)
    requires Describes(a, starts) && start in starts
    ensures Describes(Ended(a, start, now), Without(starts, start))
  {
    InstantaneousIsAges(a, starts, now);
    AgesWithout(starts, start, now);
  }

  /// Every run

  datatype Event = Start(at: real) | End(at: real, start: real) | Decay(at: real)

  function StartsAfter(events: seq<Event>): Option<seq<real>> {
    if events == [] then Some([])
    else
      var before := StartsAfter(events[..|events| - 1]);
      match (before, events[|events| - 1])
      case (Some(starts), Start(at)) => Some(starts + [at])
      case (Some(starts), End(_, start)) => if start in starts then Some(Without(starts, start)) else None
      case (Some(starts), Decay(_)) => if starts == [] then Some([]) else None
      case (None, _) => None
  }

  function AccountAfter(events: seq<Event>, t0: real): Account
    requires StartsAfter(events).Some?
    ensures AccountAfter(events, t0).outstandings == |StartsAfter(events).value|
  {
    if events == [] then Account(0.0, t0, 0)
    else
      var a := AccountAfter(events[..|events| - 1], t0);
      match events[|events| - 1]
      case Start(at) => Started(a, at)
      case End(at, start) => Ended(a, start, at)
      case Decay(at) => Decayed(a, at)
  }

  /** On every run in which only outstanding requests end, and the prediction decays only when there are none, the
      constant-time sum is the sum of the ages. */
  lemma {:induction false} BooksAlwaysRight(events: seq<Event>, t0: real, now: real)
    requires StartsAfter(events).Some?
    ensures Instantaneous(AccountAfter(events, t0), now) == Ages(StartsAfter(events).value, now)
  {
    BooksDescribe(events, t0);
    InstantaneousIsAges(AccountAfter(events, t0), StartsAfter(events).value, now);
  }

  lemma {:induction false} BooksDescribe(events: seq<Event>, t0: real)
    requires StartsAfter(events).Some?
    ensures Describes(AccountAfter(events, t0), StartsAfter(events).value)
  {
    if events != [] {
      var before := events[..|events| - 1];
      BooksDescribe(before, t0);
      var a, starts := AccountAfter(before, t0), StartsAfter(before).value;
      match events[|events| - 1] {
        case Start(at) => StartKeepsBooks(a, starts, at);
        case End(at, start) => EndKeepsBooks(a, starts, start, at);
        case Decay(at) => assert starts == [];
      }
    }
  }

  /// The socket

  /** `Math.floor(Number.MAX_SAFE_INTEGER / 2)`. */
  const STARTUP_PENALTY := 4503599627370495

  lemma {:induction false} InsertNonNegative(w: seq<real>, x: real)
    requires NonNegative(w) && x >= 0.0
    ensures NonNegative(Insert(w, x))
  {
    if w != [] && w[0] < x {
      InsertNonNegative(w[1..], x);
    }
  }

  lemma SlideNonNegative(w: seq<real>, x: real, size: nat)
    requires NonNegative(w) && x >= 0.0
    ensures NonNegative(Slide(w, x, size))
  {
    var v, r := Insert(w, x), Slide(w, x, size);
    InsertNonNegative(w, x);
    forall i | 0 <= i < |r|
      ensures r[i] >= 0.0
    {
      assert r[i] == v[i] || (i + 1 < |v| && r[i] == v[i + 1]);
    }
  }

  class WeightedSocket {
    var outstandings: nat
    var stamp: real
    var stamp0: real
    var duration: real
    const inactivityPeriodMs: real
    const median: MedianRing.SlidingMedian
    ghost var starts: seq<real>   // start times of the outstanding requests
    ghost var clock: real         // the last reading of the clock

    ghost function Books(): Account
      reads this`duration, this`stamp0, this`outstandings
    {
      Account(duration, stamp0, outstandings)
    }

    /** The books describe the outstanding requests, none of which started in the future. */
    ghost predicate Balanced()
      reads this`duration, this`stamp0, this`outstandings, this`starts, this`clock
    {
      Describes(Books(), starts) && forall i | 0 <= i < |starts| :: starts[i] <= clock
    }

    ghost predicate Learned()
      reads median, median.ring
    {
      median.Valid() && NonNegative(median.Window())
    }

    ghost predicate Valid()
      reads this`duration, this`stamp0, this`outstandings, this`starts, this`clock, median, median.ring
    {
      Balanced() && Learned()
    }

    constructor (inactivityPeriodMs: real, medianBufferSize: nat, now: real)
      requires MedianRing.PowerOfTwo(medianBufferSize)
      ensures Valid() && starts == [] && clock == now && fresh(median) && fresh(median.ring)
    {
      outstandings, stamp, stamp0, duration := 0, now, now, 0.0;
      this.inactivityPeriodMs := inactivityPeriodMs;
      median := new MedianRing.SlidingMedian(medianBufferSize);
      starts, clock := [], now;
    }

    method Incr(now: real) returns (start: real)
      requires Balanced() && clock <= now
      modifies this
      ensures Balanced() && clock == now == start
      ensures starts == old(starts) + [start]
      ensures Books() == Started(old(Books()), now) && stamp == now
    {
      StartKeepsBooks(Books(), starts, now);
      duration := duration + (now - stamp0) * outstandings as real;
      outstandings := outstandings + 1;
      stamp := now;
      stamp0 := now;
      starts, clock := starts + [now], now;
      start := now;
    }

    method Discount(start: real, now: real)
      requires outstandings > 0
      modifies this`duration, this`outstandings, this`stamp0
      ensures Books() == Ended(old(Books()), start, now)
    {
      duration := duration + (now - stamp0) * outstandings as real;
      duration := duration - (now - start);
      outstandings := outstandings - 1;
      stamp0 := now;
    }

    method Decr(start: real, now: real)
      requires Balanced() && clock <= now && start in starts
      modifies this`duration, this`outstandings, this`stamp0, this`starts, this`clock
      ensures Balanced() && clock == now
      ensures starts == Without(old(starts), start)
      ensures Books() == Ended(old(Books()), start, now)
    {
      EndKeepsBooks(Books(), starts, start, now);
      WithoutBounded(starts, start, clock);
      Discount(start, now);
      starts, clock := Without(starts, start), now;
    }

    /** A request leaves; its start time is what `OnTerminate` and `OnResponse` are called with. */
    method Request(now: real) returns (start: real)
      requires Valid() && clock <= now
      modifies this
      ensures Valid() && clock == now == start
      ensures starts == old(starts) + [start]
      ensures Books() == Started(old(Books()), now) && stamp == now
    {
      start := Incr(now);
    }

    method OnTerminate(start: real, now: real)
      requires Valid() && clock <= now && start in starts
      modifies this`duration, this`outstandings, this`stamp0, this`starts, this`clock
      ensures Valid() && clock == now
      ensures starts == Without(old(starts), start)
      ensures Books() == Ended(old(Books()), start, now)
    {
      Decr(start, now);
    }

    method Observe(rtt: real)
      requires Learned() && rtt >= 0.0
      modifies median, median.ring
      ensures Learned() && median.Window() == Slide(old(median.Window()), rtt, median.size)
    {
      SlideNonNegative(median.Window(), rtt, median.size);
      median.Insert(rtt);
    }

    method OnResponse(start: real, now: real)
      requires Valid() && clock <= now && start in starts
      modifies this`clock, median, median.ring
      ensures Valid() && clock == now
      ensures median.Window() == Slide(old(median.Window()), now - start, median.size)
    {
      clock := now;
      Observe(now - start);
    }

    /** Idle for long: an artificial low value goes into the median. */
    method Decay(prediction: real) returns (weight: real)
      requires Learned() && prediction == Medians.Estimate(median.Window()) && prediction != 0.0
      modifies median, median.ring
      ensures Learned()
      ensures median.Window() == Slide(old(median.Window()), prediction * 0.8, median.size)
      ensures 0.0 <= prediction * 0.8 <= weight <= prediction
    {
      ghost var window := median.Window();
      DecayBounds(window, median.size);
      var low := prediction * 0.8;
      Observe(low);
      assert median.Window() == Slide(window, low, median.size);
      weight := Prediction();
    }

    method Idle(prediction: real, now: real) returns (weight: real)
      requires Valid() && outstandings == 0 && clock == now
      requires prediction == Medians.Estimate(median.Window()) && prediction != 0.0
      modifies this`stamp, this`stamp0, median, median.ring
      ensures Valid() && stamp == clock && Books() == Decayed(old(Books()), now)
      ensures median.Window() == Slide(old(median.Window()), prediction * 0.8, median.size)
      ensures 0.0 <= prediction * 0.8 <= weight <= prediction
    {
      assert starts == [];
      stamp := now;
      stamp0 := now;
      assert Balanced();
      weight := Decay(prediction);
    }

    /** The current median; never negative. */
    method Prediction() returns (prediction: real)
      requires Learned()
      ensures prediction == Medians.Estimate(median.Window()) && prediction >= 0.0
    {
      prediction := median.Estimate();
      assert median.Window() != [] ==> Middle(median.Window()) >= 0.0;
    }

    /** Without history. */
    method Unknown() returns (weight: real)
      ensures outstandings == 0 ==> weight == 0.0
      ensures outstandings > 0 ==> weight == 4503599627370495.0 + outstandings as real
    {
      if outstandings == 0 {
        weight := 0.0;
      } else {
        weight := STARTUP_PENALTY as real + outstandings as real;
      }
    }

    /** Under load: the larger of the median and the mean age of the outstanding requests. */
    method Loaded(prediction: real, now: real) returns (weight: real)
      requires Balanced() && clock <= now && prediction >= 0.0
      ensures weight >= prediction && weight * |starts| as real >= Ages(starts, now)
      ensures weight == prediction || (starts != [] && weight * |starts| as real == Ages(starts, now))
    {
      InstantaneousIsAges(Books(), starts, now);
      AgesNonNegative(starts, now);
      var predicted := prediction * outstandings as real;
      var instant := duration + (now - stamp0) * outstandings as real;
      DivideCompare(prediction, instant, outstandings);
      if predicted < instant {
        weight := instant / outstandings as real;
        assert weight * outstandings as real == instant;
      } else {
        weight := prediction;
      }
    }

    /** The three ways to a weight, once the median is known. */
    method Weigh(m: real, elapsed: real, now: real) returns (weight: real)
      requires Valid() && clock == now && m == Medians.Estimate(median.Window()) >= 0.0
      modifies this`stamp, this`stamp0, median, median.ring
      ensures Valid() && weight >= 0.0
      ensures m == 0.0 ==> weight == if starts == [] then 0.0 else 4503599627370495.0 + |starts| as real
      ensures var decays := m != 0.0 && starts == [] && elapsed > inactivityPeriodMs;
              && (m != 0.0 && !decays ==>
                    && weight >= m && weight * |starts| as real >= Ages(starts, now)
                    && (weight == m || (starts != [] && weight * |starts| as real == Ages(starts, now))))
              && (decays ==> m * 0.8 <= weight <= m && Books() == Decayed(old(Books()), now) && stamp == now)
              && (!decays ==> Books() == old(Books()) && stamp == old(stamp))
              && median.Window() == if decays then Slide(old(median.Window()), m * 0.8, median.size)
                                    else old(median.Window())
    {
      if m == 0.0 {
        weight := Unknown();
      } else if outstandings == 0 && elapsed > inactivityPeriodMs {
        weight := Idle(m, now);
      } else {
        weight := Loaded(m, now);
      }
    }

    /** The weight the balancer compares. Without history: nothing, or a penalty. Idle for long: the median decays by
        at most a fifth, and the books restart. Otherwise the median or the mean age of the outstanding requests,
        whichever is larger. History and books change only in the second case. */
    method GetPredictedLatency(now: real) returns (weight: real, ghost m: real, ghost decays: bool)
      requires Valid() && clock <= now
      modifies this`stamp, this`stamp0, this`clock, median, median.ring
      ensures Valid() && clock == now && weight >= 0.0
      ensures m == old(Medians.Estimate(median.Window()))
      ensures decays <==> m != 0.0 && starts == [] && now - old(stamp) > inactivityPeriodMs
      ensures m == 0.0 ==> weight == if starts == [] then 0.0 else 4503599627370495.0 + |starts| as real
      ensures m != 0.0 && !decays ==>
        && weight >= m && weight * |starts| as real >= Ages(starts, now)
        && (weight == m || (starts != [] && weight * |starts| as real == Ages(starts, now)))
      ensures decays ==> m * 0.8 <= weight <= m && Books() == Decayed(old(Books()), now) && stamp == now
      ensures !decays ==> Books() == old(Books()) && stamp == old(stamp)
      ensures median.Window() == if decays then Slide(old(median.Window()), m * 0.8, median.size)
                                 else old(median.Window())
    {
      var elapsed := now - stamp;
      var prediction := Prediction();
      m, decays := prediction, prediction != 0.0 && starts == [] && elapsed > inactivityPeriodMs;
      clock := now;
      weight := Weigh(prediction, elapsed, now);
    }
  }

  lemma DecayBounds(w: seq<real>, size: nat)
    requires NonNegative(w) && Sorted(w) && |w| <= size && Medians.Estimate(w) != 0.0
    ensures var m := Medians.Estimate(w);
            0.0 <= m * 0.8 <= Medians.Estimate(Slide(w, m * 0.8, size)) <= m
  {
    var m := Medians.Estimate(w);
    assert m == Middle(w) >= 0.0;
    EstimateMovesTowards(w, m * 0.8, size);
  }

  lemma DivideCompare(m: real, total: real, k: nat)
    ensures k > 0 ==> (m * k as real < total <==> m < total / k as real)
    ensures k > 0 && total >= 0.0 ==> total / k as real >= 0.0
  {
    if k == 0 { return; }
    var d, q := k as real, total / k as real;
    assert q * d == total;
    if m < q { assert (q - m) * d > 0.0; } else { assert (m - q) * d >= 0.0; }
  }
}
