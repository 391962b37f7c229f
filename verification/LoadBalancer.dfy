/** The load balancer: it keeps about `targetAperture` sockets, adjusts that target to the load, and gives factories
    back when their sockets go. */
module Balancing {
  import opened Numbers
  import opened Results
  import Selection

  type Factory = nat

  /** Sockets are told apart by `id`. */
  datatype Socket = Socket(id: nat, factory: Factory)

  type Quantity = x: real | x >= 0.0

  /** What the clock shows and what sockets and factories report of themselves at one moment. */
  datatype Readings = Readings(
    now: int,
    predictedLatency: Socket -> Quantity, pending: Socket -> nat, availability: Socket -> Quantity,
    factoryAvailability: Factory -> Quantity)

  /** The readings whenever the balancer looks with so many sockets left. */
  type World = nat -> Readings

  function Amount(q: Quantity): (x: real)
    ensures x == q && x >= 0.0
  {
    q
  }

  function Latencies(sockets: seq<Socket>, r: Readings): (loads: seq<real>)
    ensures |loads| == |sockets|
    ensures forall i | 0 <= i < |sockets| :: loads[i] == r.predictedLatency(sockets[i])
    ensures NonNegative(loads)
  {
    seq(|sockets|, i requires 0 <= i < |sockets| => Amount(r.predictedLatency(sockets[i])))
  }

  function Score(availability: Quantity, latency: Quantity, pending: nat): (score: Quantity)
    ensures score >= 0.0
    ensures score * (1.0 + latency * (pending + 1) as real) == availability
  {
    var cost := 1.0 + latency * (pending + 1) as real;
    CostIsPositive(latency, (pending + 1) as real);
    Quotient(availability, cost);
    availability / cost
  }

  lemma CostIsPositive(a: real, b: real)
    requires a >= 0.0 && b >= 0.0
    ensures 1.0 + a * b > 0.0
  {
    CostsMore(0.0, b, a, b);
  }

  lemma Quotient(a: real, b: real)
    requires a >= 0.0 && b > 0.0
    ensures a / b >= 0.0 && a / b * b == a
  {}

  /** What a request looks for: available sockets that are fast and have little to do. */
  function Scores(sockets: seq<Socket>, r: Readings): (loads: seq<real>)
    ensures |loads| == |sockets|
    ensures forall i | 0 <= i < |sockets| ::
      loads[i] == Score(r.availability(sockets[i]), r.predictedLatency(sockets[i]), r.pending(sockets[i]))
    ensures NonNegative(loads)
  {
    seq(|sockets|, i requires 0 <= i < |sockets| =>
      Score(r.availability(sockets[i]), r.predictedLatency(sockets[i]), r.pending(sockets[i])))
  }

  /** With nothing else different the faster socket, the one with less to do, and the more available one score higher. */
  lemma ScoreOrders(a: Quantity, latency: Quantity, pending: nat, a': Quantity, latency': Quantity, pending': nat)
    requires a' <= a && latency <= latency' && pending <= pending'
    ensures Score(a', latency', pending') <= Score(a, latency, pending)
  {
    var cost, cost' := 1.0 + latency * (pending + 1) as real, 1.0 + latency' * (pending' + 1) as real;
    CostIsPositive(latency, (pending + 1) as real);
    CostsMore(latency, (pending + 1) as real, latency', (pending' + 1) as real);
    QuotientsOrder(a', cost', a, cost, Score(a', latency', pending'), Score(a, latency, pending));
  }

  lemma CostsMore(a: real, b: real, a': real, b': real)
    requires 0.0 <= a <= a' && 0.0 <= b <= b'
    ensures a * b <= a' * b'
  {
    assert a * b <= a' * b;
    assert a' * b <= a' * b';
  }

  lemma QuotientsOrder(a': real, c': real, a: real, c: real, q': real, q: real)
    requires q' * c' == a' <= a == q * c && 0.0 < c <= c' && q' >= 0.0
    ensures q' <= q
  {
    CostsMore(q', c, q', c');
    MeanBelow(q', c, q, q' * c);
  }

  function Availabilities(factories: seq<Factory>, r: Readings): (loads: seq<real>)
    ensures |loads| == |factories|
    ensures forall i | 0 <= i < |factories| :: loads[i] == r.factoryAvailability(factories[i])
    ensures NonNegative(loads)
  {
    seq(|factories|, i requires 0 <= i < |factories| => Amount(r.factoryAvailability(factories[i])))
  }

  function FactoriesOf(sockets: seq<Socket>): (m: multiset<Factory>)
    ensures |m| == |sockets|
  {
    if sockets == [] then multiset{} else multiset{sockets[0].factory} + FactoriesOf(sockets[1..])
  }

  lemma SumsAssociate<T>(a: multiset<T>, b: multiset<T>, c: multiset<T>)
    ensures a + (b + c) == a + b + c
  {}

  lemma {:induction false} FactoriesWithout(sockets: seq<Socket>, i: nat)
    requires i < |sockets|
    ensures FactoriesOf(sockets) == FactoriesOf(sockets[..i] + sockets[i + 1..]) + multiset{sockets[i].factory}
  {
    if i == 0 {
      assert sockets[..0] + sockets[1..] == sockets[1..];
    } else {
      var rest := sockets[1..][..i - 1] + sockets[1..][i..];
      FactoriesWithout(sockets[1..], i - 1);
      assert (sockets[..i] + sockets[i + 1..])[1..] == rest;
      SumsAssociate(multiset{sockets[0].factory}, FactoriesOf(rest), multiset{sockets[i].factory});
    }
  }

  lemma {:induction false} FactoriesWith(sockets: seq<Socket>, s: Socket)
    ensures FactoriesOf(sockets + [s]) == FactoriesOf(sockets) + multiset{s.factory}
  {
    if sockets == [] {
      assert (sockets + [s])[1..] == [];
    } else {
      FactoriesWith(sockets[1..], s);
      assert (sockets + [s])[1..] == sockets[1..] + [s];
    }
  }

  lemma SeqWithout<T>(s: seq<T>, i: nat)
    requires i < |s|
    ensures multiset(s) == multiset(s[..i] + s[i + 1..]) + multiset{s[i]}
  {
    assert s == s[..i] + [s[i]] + s[i + 1..];
  }

  lemma MiddleLess(a: multiset<Factory>, b: multiset<Factory>, c: multiset<Factory>, f: Factory)
    ensures a + (b + multiset{f}) + c == a + b + c + multiset{f}
  {}

  lemma MoveAcross(idle: multiset<Factory>, rest: multiset<Factory>, b: multiset<Factory>, c: multiset<Factory>, f: Factory)
    requires idle == rest + multiset{f}
    ensures rest + b + (c + multiset{f}) == idle + b + c
    ensures |c + multiset{f}| == |c| + 1
  {}

  lemma OneMoreDiffers(m: multiset<Factory>, f: Factory)
    ensures m + multiset{f} != m
  {
    assert (m + multiset{f})[f] == m[f] + 1;
  }

  lemma LastLess(a: multiset<Factory>, b: multiset<Factory>, c: multiset<Factory>, f: Factory)
    requires f in c
    ensures a + b + c == a + b + (c - multiset{f}) + multiset{f}
    ensures |c - multiset{f}| == |c| - 1
  {}

  lemma BuiltKeeps(idle: multiset<Factory>, sockets: seq<Socket>, building: multiset<Factory>, s: Socket)
    requires s.factory in building
    ensures idle + FactoriesOf(sockets + [s]) + (building - multiset{s.factory}) == idle + FactoriesOf(sockets) + building
    ensures |building - multiset{s.factory}| == |building| - 1
  {
    FactoriesWith(sockets, s);
    LastLess(idle, FactoriesOf(sockets), building, s.factory);
    MiddleLess(idle, FactoriesOf(sockets), building - multiset{s.factory}, s.factory);
  }

  lemma OneGone(idle: multiset<Factory>, sockets: seq<Socket>, i: nat, rest: seq<Socket>,
                building: multiset<Factory>, shut: seq<Socket>)
    requires i < |sockets| && rest == sockets[..i] + sockets[i + 1..]
    ensures multiset(sockets) == multiset(rest) + multiset{sockets[i]}
    ensures NoneNew(rest, sockets) && Count(rest, sockets[i]) < Count(sockets, sockets[i])
    ensures multiset(rest) + multiset(shut + [sockets[i]]) == multiset(sockets) + multiset(shut)
    ensures idle + FactoriesOf(sockets) + building == idle + FactoriesOf(rest) + building + multiset{sockets[i].factory}
  {
    FactoriesWithout(sockets, i);
    SeqWithout(sockets, i);
    MiddleLess(idle, FactoriesOf(rest), building, sockets[i].factory);
  }

  /** The new target: one less when there is little to do, one more when there is much and a socket could be added. */
  function Adjusted(target: int, min: int, max: int, average: real, connectable: nat): (t: int)
    ensures target - 1 <= t <= target + 1
    ensures t < target <==> average < 1.5 && target > min
    ensures t > target <==> average > 2.5 && target < max && target < connectable
  {
    if average < 1.5 then (if min < target then target - 1 else target)
    else if average > 2.5 then (if target < max && target < connectable then target + 1 else target)
    else target
  }

  /** Whatever the load, the target stays between the smaller of initial and minimum and the larger of initial and
      maximum: an initial value outside its bounds is only ever moved inwards. */
  lemma AdjustedStaysInBounds(target: int, initial: int, min: int, max: int, average: real, connectable: nat)
    requires Min(initial, min) <= target <= Max(initial, max)
    ensures Min(initial, min) <= Adjusted(target, min, max, average, connectable) <= Max(initial, max)
    ensures target > max ==> Adjusted(target, min, max, average, connectable) <= target
    ensures target < min ==> Adjusted(target, min, max, average, connectable) >= target
  {}

  function Count(sockets: seq<Socket>, s: Socket): nat {
    multiset(sockets)[s]
  }

  lemma Counts(sockets: seq<Socket>, s: Socket)
    ensures s in sockets <==> Count(sockets, s) > 0
  {
    assert s in multiset(sockets) <==> s in sockets;
  }

  /** No socket occurs more often than before. */
  ghost predicate NoneNew(later: seq<Socket>, sockets: seq<Socket>) {
    forall s :: Count(later, s) <= Count(sockets, s)
  }

  lemma StillThere(later: seq<Socket>, sockets: seq<Socket>, s: Socket)
    requires NoneNew(later, sockets) && s in later
    ensures s in sockets
  {
    assert Count(later, s) <= Count(sockets, s);
    assert s in multiset(later);
  }

  function Average(outstandings: int, sockets: nat): (average: real)
    ensures sockets == 0 ==> average == 0.0
    ensures average * sockets as real == if sockets == 0 then 0.0 else outstandings as real
  {
    if sockets == 0 then 0.0 else outstandings as real / sockets as real
  }

  /** The mean against its two bounds, in whole numbers. */
  lemma AverageExactly(outstandings: int, sockets: nat)
    ensures Average(outstandings, sockets) < 1.5 <==> sockets == 0 || 2 * outstandings < 3 * sockets
    ensures Average(outstandings, sockets) > 2.5 <==> sockets != 0 && 2 * outstandings > 5 * sockets
  {
    if sockets != 0 {
      MeanAgainst(Average(outstandings, sockets), sockets, outstandings);
    }
  }

  lemma MeanAgainst(mean: real, n: nat, sum: int)
    requires n != 0 && mean * n as real == sum as real
    ensures mean < 1.5 <==> 2 * sum < 3 * n
    ensures mean > 2.5 <==> 2 * sum > 5 * n
  {
    MeanBelow(mean, n as real, 1.5, sum as real);
    MeanBelow(mean, n as real, 2.5, sum as real);
    WholeNumbers(sum, n);
  }

  lemma WholeNumbers(a: int, b: int)
    ensures a as real < 1.5 * b as real <==> 2 * a < 3 * b
    ensures a as real > 2.5 * b as real <==> 2 * a > 5 * b
  {
    assert 2.0 * a as real == (2 * a) as real && 3.0 * b as real == (3 * b) as real && 5.0 * b as real == (5 * b) as real;
  }

  lemma MeanBelow(mean: real, n: real, bound: real, sum: real)
    requires n > 0.0 && mean * n == sum
    ensures mean < bound <==> sum < bound * n
    ensures mean > bound <==> sum > bound * n
  {
    if mean < bound {
      assert (bound - mean) * n > 0.0;
    } else if mean > bound {
      assert (mean - bound) * n > 0.0;
    }
  }

  /// Sustained load

  /** What an update of the target sees. */
  datatype Load = Load(outstandings: int, sockets: nat, connectable: nat)

  /** The target after one update for each load. */
  function Adapted(target: int, min: int, max: int, loads: seq<Load>): int {
    if loads == [] then target
    else
      var before := Adapted(target, min, max, loads[..|loads| - 1]);
      var load := loads[|loads| - 1];
      Adjusted(before, min, max, Average(load.outstandings, load.sockets), load.connectable)
  }

  predicate Heavy(load: Load) {
    load.sockets != 0 && 2 * load.outstandings > 5 * load.sockets
  }

  predicate Light(load: Load) {
    load.sockets == 0 || 2 * load.outstandings < 3 * load.sockets
  }

  /** Under sustained high load the target rises by one at each update until it reaches the smaller of the maximum and
      the number of sockets there could be, and stays there. A target beyond that does not move. */
  lemma {:induction false} SustainedHighLoad(target: int, min: int, max: int, connectable: nat, loads: seq<Load>)
    requires forall l <- loads :: Heavy(l) && l.connectable == connectable
    ensures var cap := if max < connectable then max else connectable;
            Adapted(target, min, max, loads)
            == if target >= cap then target else if target + |loads| < cap then target + |loads| else cap
  {
    if loads != [] {
      var load := loads[|loads| - 1];
      assert load in loads;
      SustainedHighLoad(target, min, max, connectable, loads[..|loads| - 1]);
      AverageExactly(load.outstandings, load.sockets);
    }
  }

  /** Under sustained low load it falls by one at each update until it reaches the minimum, and stays there. */
  lemma {:induction false} SustainedLowLoad(target: int, min: int, max: int, loads: seq<Load>)
    requires forall l <- loads :: Light(l)
    ensures Adapted(target, min, max, loads)
         == if target <= min then target else if target - |loads| > min then target - |loads| else min
  {
    if loads != [] {
      var load := loads[|loads| - 1];
      assert load in loads;
      SustainedLowLoad(target, min, max, loads[..|loads| - 1]);
      AverageExactly(load.outstandings, load.sockets);
    }
  }

  /** Between the two nothing moves. */
  lemma {:induction false} SteadyLoad(target: int, min: int, max: int, loads: seq<Load>)
    requires forall l <- loads :: !Light(l) && !Heavy(l)
    ensures Adapted(target, min, max, loads) == target
  {
    if loads != [] {
      var load := loads[|loads| - 1];
      assert load in loads;
      SteadyLoad(target, min, max, loads[..|loads| - 1]);
      AverageExactly(load.outstandings, load.sockets);
    }
  }

  /** `f` is gone from its first place. */
  ghost predicate FirstGone(before: seq<Factory>, after: seq<Factory>, f: Factory) {
    exists i: nat :: i < |before| && before[i] == f && f !in before[..i] && after == before[..i] + before[i + 1..]
  }

  /** A well available factory has gone from the idle ones to those whose build is under way. */
  ghost predicate Begun(idle: seq<Factory>, building: multiset<Factory>,
                        idle': seq<Factory>, building': multiset<Factory>, r: Readings) {
    exists f: Factory :: Selection.Chosen(f, idle, Availabilities(idle, r))
      && FirstGone(idle, idle', f) && building' == building + multiset{f}
  }

  lemma BegunWith(idle: seq<Factory>, building: multiset<Factory>, idle': seq<Factory>, building': multiset<Factory>,
                  r: Readings, f: Factory)
    requires Selection.Chosen(f, idle, Availabilities(idle, r)) && FirstGone(idle, idle', f)
    requires building' == building + multiset{f}
    ensures Begun(idle, building, idle', building', r)
  {}

  /** Some sockets have been shut and none has come. */
  ghost predicate Shrunk(sockets: seq<Socket>, shut: seq<Socket>, sockets': seq<Socket>, shut': seq<Socket>) {
    && |sockets'| <= |sockets| && NoneNew(sockets', sockets) && shut <= shut'
    && multiset(sockets') + multiset(shut') == multiset(sockets) + multiset(shut)
  }

  lemma ShrunkTwice(sockets: seq<Socket>, shut: seq<Socket>, sockets': seq<Socket>, shut': seq<Socket>,
                    sockets'': seq<Socket>, shut'': seq<Socket>)
    requires Shrunk(sockets, shut, sockets', shut') && Shrunk(sockets', shut', sockets'', shut'')
    ensures Shrunk(sockets, shut, sockets'', shut'')
  {
    forall s ensures Count(sockets'', s) <= Count(sockets, s) {
      assert Count(sockets'', s) <= Count(sockets', s) <= Count(sockets, s);
    }
  }

  /** `socket` has been shut, before any other. */
  ghost predicate ShutNext(socket: Socket, sockets: seq<Socket>, shut: seq<Socket>,
                           sockets': seq<Socket>, shut': seq<Socket>) {
    && |sockets'| < |sockets| && |shut| < |shut'| && shut'[|shut|] == socket
    && Count(sockets', socket) < Count(sockets, socket)
  }

  lemma ThenShrunk(socket: Socket, sockets: seq<Socket>, shut: seq<Socket>, sockets': seq<Socket>, shut': seq<Socket>,
                   sockets'': seq<Socket>, shut'': seq<Socket>)
    requires Shrunk(sockets, shut, sockets', shut') && Shrunk(sockets', shut', sockets'', shut'')
    ensures Shrunk(sockets, shut, sockets'', shut'')
    ensures ShutNext(socket, sockets, shut, sockets', shut') ==> ShutNext(socket, sockets, shut, sockets'', shut'')
  {
    ShrunkTwice(sockets, shut, sockets', shut', sockets'', shut'');
    assert Count(sockets'', socket) <= Count(sockets', socket);
  }

  /** If there are sockets, one of them is shut before any other: a slow one. */
  ghost predicate SlowFirst(sockets: seq<Socket>, shut: seq<Socket>, sockets': seq<Socket>, shut': seq<Socket>,
                            r: Readings) {
    sockets != [] ==>
      && |sockets'| < |sockets| && |shut| < |shut'|
      && Selection.Chosen(shut'[|shut|], sockets, Latencies(sockets, r))
  }

  /** The first socket shut is, by predicted latency, at least as slow as another one, or two others of more than ten. */
  lemma SlowFirstIsSlow(sockets: seq<Socket>, shut: seq<Socket>, sockets': seq<Socket>, shut': seq<Socket>, r: Readings)
    requires SlowFirst(sockets, shut, sockets', shut', r) && |sockets| > 1
    ensures |shut| < |shut'|
    ensures exists best: nat ::
      best < |sockets| && sockets[best] == shut'[|shut|]
      && |set i: nat | i < |sockets| && r.predictedLatency(sockets[i]) <= r.predictedLatency(sockets[best])|
         >= if |sockets| > 10 then 3 else 2
  {
    var loads := Latencies(sockets, r);
    Selection.ChosenIsNotWorst(shut'[|shut|], sockets, loads);
    var best: nat :| best < |loads| && sockets[best] == shut'[|shut|]
      && |set i: nat | i < |loads| && loads[i] <= loads[best]| >= if |loads| > 10 then 3 else if |loads| > 1 then 2 else 1;
    assert (set i: nat | i < |loads| && loads[i] <= loads[best])
        == (set i: nat | i < |sockets| && r.predictedLatency(sockets[i]) <= r.predictedLatency(sockets[best]));
  }

  /** The build started is one of a factory off the list, at least as available as another one, or two of more than ten. */
  lemma BegunIsAvailable(idle: seq<Factory>, building: multiset<Factory>, idle': seq<Factory>, building': multiset<Factory>,
                         r: Readings)
    requires Begun(idle, building, idle', building', r) && |idle| > 1
    ensures exists best: nat ::
      best < |idle| && multiset(idle) == multiset(idle') + multiset{idle[best]}
      && building' == building + multiset{idle[best]}
      && |set i: nat | i < |idle| && r.factoryAvailability(idle[i]) <= r.factoryAvailability(idle[best])|
         >= if |idle| > 10 then 3 else 2
  {
    var loads := Availabilities(idle, r);
    var f: Factory :| Selection.Chosen(f, idle, loads) && FirstGone(idle, idle', f) && building' == building + multiset{f};
    Selection.ChosenIsNotWorst(f, idle, loads);
    var best: nat :| best < |loads| && idle[best] == f
      && |set i: nat | i < |loads| && loads[i] <= loads[best]| >= if |loads| > 10 then 3 else if |loads| > 1 then 2 else 1;
    assert (set i: nat | i < |loads| && loads[i] <= loads[best])
        == (set i: nat | i < |idle| && r.factoryAvailability(idle[i]) <= r.factoryAvailability(idle[best]));
    var i: nat :| i < |idle| && idle[i] == f && f !in idle[..i] && idle' == idle[..i] + idle[i + 1..];
    SeqWithout(idle, i);
  }

  class LoadBalancer {
    const initialAperture: int
    const minAperture: int
    const maxAperture: int
    const refreshPeriod: int
    var factories: seq<Factory>
    var sockets: seq<Socket>
    var pendings: nat
    var outstandings: int
    var targetAperture: int
    var lastApertureRefresh: int
    var isReady: bool
    var closed: bool
    var shut: seq<Socket>                 // sockets told to close, in order
    ghost var building: multiset<Factory> // factories whose build has not resolved

    /** Every factory the balancer is responsible for: idle, building, or behind a socket. */
    ghost function Owned(): multiset<Factory>
      reads this`factories, this`sockets, this`building
    {
      multiset(factories) + FactoriesOf(sockets) + building
    }

    function Wanted(): nat
      reads this`sockets, this`pendings
    {
      |sockets| + pendings
    }

    ghost predicate Valid()
      reads this`targetAperture, this`sockets, this`pendings, this`building
    {
      && Min(initialAperture, minAperture) <= targetAperture <= Max(initialAperture, maxAperture)
      && pendings == |building|
      && Wanted() <= Max(0, Max(initialAperture, maxAperture))
    }

    /** Nothing left to do: at most as many sockets as wanted, or none to spare. */
    predicate Settled()
      reads this`closed, this`targetAperture, this`sockets, this`pendings
    {
      !closed ==> Wanted() <= targetAperture || sockets == []
    }

    constructor (initialAperture: int, minAperture: int, maxAperture: int, refreshPeriod: int)
      ensures Valid() && factories == [] && sockets == [] && building == multiset{} && !closed && shut == []
      ensures targetAperture == initialAperture
    {
      this.initialAperture, this.minAperture, this.maxAperture := initialAperture, minAperture, maxAperture;
      this.refreshPeriod := refreshPeriod;
      factories, sockets, pendings, outstandings := [], [], 0, 0;
      targetAperture, lastApertureRefresh, isReady, closed := initialAperture, 0, false, false;
      shut, building := [], multiset{};
    }

    /** The target once it has been updated, at most once in a period. */
    function NextTarget(now: int): int
      reads this`closed, this`lastApertureRefresh, this`targetAperture, this`outstandings, this`sockets, this`factories
    {
      if closed || now - lastApertureRefresh <= refreshPeriod then targetAperture
      else Adjusted(targetAperture, minAperture, maxAperture,
                    Average(outstandings, |sockets|), |factories| + |sockets|)
    }

    /** `now` is a reading of the clock. */
    method UpdateAperture(now: int)
      requires Valid()
      modifies this`targetAperture, this`lastApertureRefresh
      ensures Valid()
      ensures var acts := !closed && now - old(lastApertureRefresh) > refreshPeriod;
              var light := |sockets| == 0 || 2 * outstandings < 3 * |sockets|;
              var heavy := |sockets| != 0 && 2 * outstandings > 5 * |sockets|;
              && old(targetAperture) - 1 <= targetAperture <= old(targetAperture) + 1
              && (targetAperture < old(targetAperture) <==> acts && light && old(targetAperture) > minAperture)
              && (targetAperture > old(targetAperture)
                  <==> acts && heavy && old(targetAperture) < maxAperture
                       && old(targetAperture) < |factories| + |sockets|)
              && lastApertureRefresh == if acts && (light || heavy) then now else old(lastApertureRefresh)
      ensures targetAperture == old(NextTarget(now))
    {
      AverageExactly(outstandings, |sockets|);
      var underRateLimit := now - lastApertureRefresh > refreshPeriod;
      if !underRateLimit || closed { return; }
      var avgOutstandings := 0.0;
      if |sockets| != 0 {
        avgOutstandings := outstandings as real / |sockets| as real;
      }
      if avgOutstandings < 1.5 {
        if minAperture < targetAperture {
          targetAperture := targetAperture - 1;
        }
        lastApertureRefresh := now;
      } else if avgOutstandings > 2.5 {
        var maxConnPossible := |factories| + |sockets|;
        if targetAperture < maxAperture && targetAperture < maxConnPossible {
          targetAperture := targetAperture + 1;
        }
        lastApertureRefresh := now;
      }
    }

    /** Takes a factory off the list, if there is one: one that beat its sample by what the factories report. */
    method SelectFactory(r: Readings) returns (factory: Option<Factory>)
      modifies this`factories
      ensures factory.None? <==> old(factories) == []
      ensures factory.None? ==> factories == old(factories)
      ensures factory.Some? ==>
        && Selection.Chosen(factory.value, old(factories), Availabilities(old(factories), r))
        && FirstGone(old(factories), factories, factory.value)
        && multiset(old(factories)) == multiset(factories) + multiset{factory.value}
    {
      var loads := Availabilities(factories, r);
      var choice := Selection.PNC(loads, seq(|loads|, i requires 0 <= i < |loads| => loads[i] > 0.0));
      if choice.None? { return None; }
      factory := Some(factories[choice.value]);
      DropIdle(factory.value);
    }

    /** The slowest of the sampled sockets: what is compared is the predicted latency. */
    method SelectSlowSocket(r: Readings) returns (socket: Option<Socket>)
      ensures socket.None? <==> sockets == []
      ensures socket.Some? ==>
        socket.value in sockets && Selection.Chosen(socket.value, sockets, Latencies(sockets, r))
    {
      var choice := Selection.PNC(Latencies(sockets, r), Available(r));
      socket := if choice.Some? then Some(sockets[choice.value]) else None;
    }

    function Available(r: Readings): (up: seq<bool>)
      reads this`sockets
      ensures |up| == |sockets|
      ensures forall i | 0 <= i < |sockets| :: up[i] <==> r.availability(sockets[i]) > 0.0
    {
      var sockets := sockets;
      seq(|sockets|, i requires 0 <= i < |sockets| => r.availability(sockets[i]) > 0.0)
    }

    /** Starts a build. */
    method AddSocket(factory: Factory)
      modifies this`pendings, this`building
      ensures closed ==> pendings == old(pendings) && building == old(building)
      ensures !closed ==> pendings == old(pendings) + 1 && building == old(building) + multiset{factory}
    {
      if closed { return; }
      pendings := pendings + 1;
      building := building + multiset{factory};
    }

    /** A factory taken off the list goes into a build. */
    method Build(factory: Factory, ghost idle: multiset<Factory>)
      requires !closed && idle == multiset(factories) + multiset{factory}
      modifies this`pendings, this`building
      ensures Owned() == idle + FactoriesOf(sockets) + old(building)
      ensures pendings == old(pendings) + 1 && |building| == |old(building)| + 1
      ensures building == old(building) + multiset{factory}
    {
      MoveAcross(idle, multiset(factories), FactoriesOf(sockets), building, factory);
      AddSocket(factory);
    }

    /** A factory, if there is one, goes from the idle list to the builds. */
    method StartBuild(r: Readings)
      requires !closed
      modifies this`factories, this`pendings, this`building
      ensures Owned() == old(Owned())
      ensures pendings - old(pendings) == |building| - |old(building)|
      ensures pendings == if old(factories) == [] then old(pendings) else old(pendings) + 1
      ensures old(factories) != [] ==> Begun(old(factories), old(building), factories, building, r)
    {
      ghost var idle := multiset(factories);
      var factory := SelectFactory(r);
      if factory.Some? {
        Build(factory.value, idle);
        BegunWith(old(factories), old(building), factories, building, r, factory.value);
      }
    }

    /** Adjusts the target, then starts one build or lets sockets go, one after the other, until the target is met. The
        first socket to go is a slow one. */
    method RefreshSockets(world: World)
      requires Valid()
      modifies this
      ensures Valid() && Settled() && closed == old(closed) && outstandings == old(outstandings)
      ensures Shrunk(old(sockets), old(shut), sockets, shut) && pendings <= old(pendings) + 1
      ensures Owned() == old(Owned())
      ensures var (target, r) := (old(NextTarget(world(|sockets|).now)), world(|old(sockets)|));
              if closed || old(Wanted()) == target then
                sockets == old(sockets) && factories == old(factories) && pendings == old(pendings) && shut == old(shut)
              else if old(Wanted()) > target then
                SlowFirst(old(sockets), old(shut), sockets, shut, r)
              else
                && targetAperture == target && sockets == old(sockets) && shut == old(shut)
                && pendings == (if old(factories) == [] then old(pendings) else old(pendings) + 1)
                && (old(factories) != [] ==> Begun(old(factories), old(building), factories, building, r))
      decreases |sockets|, 2
    {
      if closed { return; }
      var r := world(|sockets|);
      UpdateAperture(r.now);
      var n := |sockets| + pendings;
      if n < targetAperture {
        StartBuild(r);
      } else if n > targetAperture {
        LetGo(world);
      }
    }

    /** Shuts a slow socket, if there is one, and looks again. */
    method LetGo(world: World)
      requires Valid() && !closed
      modifies this
      ensures Valid() && Settled() && closed == old(closed) && outstandings == old(outstandings)
      ensures Shrunk(old(sockets), old(shut), sockets, shut) && pendings <= old(pendings) + 1
      ensures Owned() == old(Owned())
      ensures SlowFirst(old(sockets), old(shut), sockets, shut, world(|old(sockets)|))
      decreases |sockets|, 1
    {
      var r := world(|sockets|);
      var socket := SelectSlowSocket(r);
      if socket.Some? {
        RemoveSocket(socket.value, true, world);
      }
    }

    method IndexOf(socket: Socket) returns (i: int)
      ensures -1 <= i < |sockets|
      ensures i >= 0 ==> sockets[i] == socket
      ensures i < 0 <==> socket !in sockets
    {
      i := 0;
      while i < |sockets|
        invariant 0 <= i <= |sockets| && socket !in sockets[..i]
      {
        if sockets[i] == socket { return; }
        i := i + 1;
      }
      assert sockets[..i] == sockets;
      i := -1;
    }

    /** Tells a socket to close and forgets it. */
    method ShutAt(i: nat)
      requires Valid() && i < |sockets|
      modifies this`sockets, this`shut
      ensures Valid() && |sockets| == |old(sockets)| - 1
      ensures shut == old(shut) + [old(sockets)[i]]
      ensures multiset(old(sockets)) == multiset(sockets) + multiset{old(sockets)[i]}
      ensures Count(sockets, old(sockets)[i]) < Count(old(sockets), old(sockets)[i])
      ensures Shrunk(old(sockets), old(shut), sockets, shut)
      ensures old(Owned()) == Owned() + multiset{old(sockets)[i].factory}
    {
      var rest := sockets[..i] + sockets[i + 1..];
      OneGone(multiset(factories), sockets, i, rest, building, shut);
      shut := shut + [sockets[i]];
      sockets := rest;
    }

    method ShutIfThere(socket: Socket)
      requires Valid()
      modifies this`sockets, this`shut
      ensures Valid() && Shrunk(old(sockets), old(shut), sockets, shut)
      ensures if socket in old(sockets) then
                && ShutNext(socket, old(sockets), old(shut), sockets, shut)
                && old(Owned()) == Owned() + multiset{socket.factory}
                && multiset(old(sockets)) == multiset(sockets) + multiset{socket}
              else sockets == old(sockets) && shut == old(shut)
    {
      var i := IndexOf(socket);
      if i >= 0 {
        ShutAt(i);
      }
    }

    /** Shuts the socket if it is still there; gives its factory back if asked to, whether or not it was. */
    method RemoveSocket(socket: Socket, keepFactory: bool, world: World)
      requires Valid()
      modifies this
      ensures Valid() && closed == old(closed) && outstandings == old(outstandings)
      ensures Shrunk(old(sockets), old(shut), sockets, shut) && pendings <= old(pendings) + 1
      ensures keepFactory ==> Settled()
      ensures var present := socket in old(sockets);
              var back := keepFactory && !closed;
              && (present && back ==> Owned() == old(Owned()))
              && (present && !back ==> old(Owned()) == Owned() + multiset{socket.factory})
              && (!present && back ==> Owned() == old(Owned()) + multiset{socket.factory})
              && (!present && !back ==> Owned() == old(Owned()))
      ensures socket in old(sockets) ==> ShutNext(socket, old(sockets), old(shut), sockets, shut)
      ensures !keepFactory ==>
        && factories == old(factories) && pendings == old(pendings) && building == old(building)
        && (socket in old(sockets) ==> multiset(old(sockets)) == multiset(sockets) + multiset{socket})
      decreases |sockets|, if socket in sockets then 0 else 4
    {
      ShutIfThere(socket);
      ghost var sockets', shut' := sockets, shut;
      GiveBack(socket.factory, keepFactory, world);
      ThenShrunk(socket, old(sockets), old(shut), sockets', shut', sockets, shut);
    }

    method GiveBack(factory: Factory, keepFactory: bool, world: World)
      requires Valid()
      modifies this
      ensures Valid() && closed == old(closed) && outstandings == old(outstandings)
      ensures Shrunk(old(sockets), old(shut), sockets, shut) && pendings <= old(pendings) + 1
      ensures keepFactory ==> Settled()
      ensures Owned() == if keepFactory && !closed then old(Owned()) + multiset{factory} else old(Owned())
      ensures !keepFactory ==>
        factories == old(factories) && pendings == old(pendings) && building == old(building) && sockets == old(sockets)
      decreases |sockets|, 3, 1
    {
      if keepFactory {
        AddFactory(factory, world);
      }
    }

    method AddFactory(factory: Factory, world: World)
      requires Valid()
      modifies this
      ensures Valid() && Settled() && closed == old(closed) && outstandings == old(outstandings)
      ensures Shrunk(old(sockets), old(shut), sockets, shut) && pendings <= old(pendings) + 1
      ensures Owned() == if closed then old(Owned()) else old(Owned()) + multiset{factory}
      decreases |sockets|, 3, 0
    {
      if closed { return; }
      factories := factories + [factory];
      RefreshSockets(world);
    }

    /// Events

    /** The sockets of one factory. */
    method SocketsOf(factory: Factory) returns (these: seq<Socket>)
      ensures forall s: Socket ::
        multiset(these)[s] == if s.factory == factory then multiset(sockets)[s] else 0
    {
      these := [];
      for i := 0 to |sockets|
        invariant forall s: Socket ::
          multiset(these)[s] == if s.factory == factory then multiset(sockets[..i])[s] else 0
      {
        assert sockets[..i + 1] == sockets[..i] + [sockets[i]];
        if sockets[i].factory == factory {
          these := these + [sockets[i]];
        }
      }
      assert sockets[..|sockets|] == sockets;
    }

    /** A build becomes a socket. */
    method Admit(socket: Socket)
      requires socket.factory in building && pendings == |building|
      modifies this`sockets, this`pendings, this`building
      ensures sockets == old(sockets) + [socket]
      ensures pendings == old(pendings) - 1 == |building| && Owned() == old(Owned())
    {
      BuiltKeeps(multiset(factories), sockets, building, socket);
      sockets := sockets + [socket];
      pendings := pendings - 1;
      building := building - multiset{socket.factory};
    }

    /** A build has resolved to a socket. The first one makes the balancer ready and starts the aperture's clock. */
    method OnBuilt(socket: Socket, now: int)
      requires Valid() && socket.factory in building
      modifies this`sockets, this`pendings, this`building, this`isReady, this`lastApertureRefresh
      ensures Valid() && Owned() == old(Owned()) && Wanted() == old(Wanted())
      ensures sockets == old(sockets) + [socket] && isReady
      ensures lastApertureRefresh == if old(isReady) then old(lastApertureRefresh) else now
    {
      Admit(socket);
      if !isReady {
        isReady := true;
        lastApertureRefresh := now;
      }
    }

    /** A build has failed: its factory is not put back. */
    method OnBuildError(ghost factory: Factory)
      requires Valid() && factory in building
      modifies this`pendings, this`building
      ensures Valid() && old(Owned()) == Owned() + multiset{factory} && pendings == old(pendings) - 1
    {
      LastLess(multiset(factories), FactoriesOf(sockets), building, factory);
      pendings := pendings - 1;
      building := building - multiset{factory};
    }

    method OnSocketError(socket: Socket, world: World)
      requires Valid()
      modifies this
      ensures Valid() && Settled() && closed == old(closed)
      ensures NoneNew(sockets, old(sockets))
      ensures socket in old(sockets) ==> Count(sockets, socket) < Count(old(sockets), socket)
      ensures !closed && socket !in old(sockets) ==> Owned() == old(Owned()) + multiset{socket.factory}
      ensures !closed ==> (Owned() == old(Owned()) <==> socket in old(sockets))
    {
      OneMoreDiffers(Owned(), socket.factory);
      RemoveSocket(socket, true, world);
    }

    method OnSocketClose(socket: Socket, world: World)
      requires Valid()
      modifies this
      ensures Valid() && Settled() && closed == old(closed)
      ensures NoneNew(sockets, old(sockets))
      ensures !closed && socket in old(sockets) ==> Count(sockets, socket) < Count(old(sockets), socket)
      ensures !closed && socket !in old(sockets) ==> Owned() == old(Owned()) + multiset{socket.factory}
      ensures !closed ==> (Owned() == old(Owned()) <==> socket in old(sockets))
    {
      if !closed {
        OneMoreDiffers(Owned(), socket.factory);
        RemoveSocket(socket, true, world);
      }
    }

    /** An error of an idle socket: the connection's own handler closes the connection, which announces that at once, and
        then the balancer hears of the error as well. The socket is removed once, but its factory is added twice. */
    method OnErrorOfIdleSocket(socket: Socket, worldAtClose: World, worldAtError: World)
      requires Valid() && Count(sockets, socket) == 1
      modifies this
      ensures Valid() && Settled() && Count(sockets, socket) == 0
      ensures !closed ==> Owned() == old(Owned()) + multiset{socket.factory}
    {
      Counts(sockets, socket);
      OnSocketClose(socket, worldAtClose);
      Counts(sockets, socket);
      OnSocketError(socket, worldAtError);
    }

    /** The periodic replacement of a slow socket. */
    method OnRefreshTimer(r: Readings, world: World)
      requires Valid()
      modifies this
      ensures Valid() && Owned() == old(Owned()) && closed == old(closed)
      ensures old(Settled()) ==> Settled()
      ensures !closed && old(sockets) != [] && old(factories) != [] ==>
        Settled() && |sockets| < |old(sockets)| && SlowFirst(old(sockets), old(shut), sockets, shut, r)
    {
      if !closed && |sockets| > 0 && |factories| > 0 {
        var socket := SelectSlowSocket(r);
        RemoveSocket(socket.value, true, world);
      }
    }

    /** The socket for a request: after a refresh, one that beat its sample by its score. Without any socket the request
        goes to one that always fails. */
    method SelectSocket(world: World, r: Readings) returns (socket: Option<Socket>)
      requires Valid()
      modifies this
      ensures Valid() && Settled() && closed == old(closed) && Owned() == old(Owned())
      ensures outstandings == old(outstandings)
      ensures socket.None? <==> sockets == []
      ensures socket.Some? ==> Selection.Chosen(socket.value, sockets, Scores(sockets, r))
      ensures socket.Some? ==> socket.value in sockets && socket.value in old(sockets)
    {
      RefreshSockets(world);
      var choice := Selection.PNC(Scores(sockets, r), Available(r));
      if choice.None? { return None; }
      socket := Some(sockets[choice.value]);
      StillThere(sockets, old(sockets), socket.value);
    }

    /** A request goes to a socket that was there before it came. */
    method OnRequest(world: World, r: Readings) returns (socket: Option<Socket>)
      requires Valid()
      modifies this
      ensures Valid() && Settled() && closed == old(closed) && Owned() == old(Owned())
      ensures outstandings == if closed then old(outstandings) else old(outstandings) + 1
      ensures socket.Some? ==> socket.value in sockets && socket.value in old(sockets)
      ensures socket.Some? ==> Selection.Chosen(socket.value, sockets, Scores(sockets, r))
      ensures !closed ==> (socket.None? <==> sockets == [])
    {
      if closed { return None; }
      socket := SelectSocket(world, r);
      outstandings := outstandings + 1;
    }

    method OnTerminate()
      modifies this`outstandings
      ensures outstandings == old(outstandings) - 1
    {
      outstandings := outstandings - 1;
    }

    /** Every socket is told to close; none is forgotten. */
    method Close()
      requires Valid()
      modifies this`closed, this`shut
      ensures Valid() && Settled() && closed && shut == old(shut) + sockets
    {
      closed := true;
      for i := 0 to |sockets|
        invariant closed && Valid() && shut == old(shut) + sockets[..i]
      {
        shut := shut + [sockets[i]];
      }
      assert sockets[..|sockets|] == sockets;
    }

    /** `indexOf` and `splice`. */
    method DropIdle(factory: Factory)
      modifies this`factories
      ensures if factory in old(factories) then FirstGone(old(factories), factories, factory)
              else factories == old(factories)
      ensures factory in old(factories) ==> multiset(old(factories)) == multiset(factories) + multiset{factory}
      ensures var idle := multiset(old(factories))[factory];
              multiset(factories)[factory] == if idle > 0 then idle - 1 else 0
      ensures forall f | f != factory :: multiset(factories)[f] == multiset(old(factories))[f]
    {
      for i := 0 to |factories|
        invariant factories == old(factories) && factory !in factories[..i]
      {
        if factories[i] == factory {
          SeqWithout(factories, i);
          factories := factories[..i] + factories[i + 1..];
          return;
        }
      }
      assert factories[..|factories|] == factories;
    }

    /** Shuts the given sockets, all of which are there. */
    method ShutAll(these: seq<Socket>, factory: Factory, world: World)
      requires Valid() && multiset(these) <= multiset(sockets)
      requires forall s | s in these :: s.factory == factory
      modifies this
      ensures Valid() && closed == old(closed)
      ensures multiset(old(sockets)) == multiset(sockets) + multiset(these)
      ensures factories == old(factories) && building == old(building)
      ensures forall f | f != factory :: Owned()[f] == old(Owned())[f]
      decreases |these|
    {
      if these != [] {
        var s := these[0];
        HeadAndTail(these);
        RemoveSocket(s, false, world);
        ghost var left, owned := multiset(sockets), Owned();
        Remaining(old(multiset(sockets)), left, multiset(these[1..]), s);
        assert forall f | f != factory :: owned[f] == old(Owned())[f];
        ShutAll(these[1..], factory, world);
        SumsAssociate(multiset(sockets), multiset{s}, multiset(these[1..]));
      }
    }

    method ShutSocketsOf(factory: Factory, world: World)
      requires Valid()
      modifies this
      ensures Valid() && closed == old(closed) && factories == old(factories) && building == old(building)
      ensures forall s | s in sockets :: s.factory != factory
      ensures Owned()[factory] == multiset(factories)[factory] + building[factory]
      ensures forall f | f != factory :: Owned()[f] == old(Owned())[f]
    {
      var socketsToClose := SocketsOf(factory);
      ghost var before := sockets;
      AllOfThem(before, socketsToClose, factory);
      ShutAll(socketsToClose, factory, world);
      NoneLeft(before, socketsToClose, sockets, factory);
      NoneOwned(sockets, factory);
    }

    method Disown(factory: Factory, world: World)
      requires Valid()
      modifies this
      ensures Valid() && closed == old(closed)
      ensures var idle := multiset(old(factories))[factory];
              Owned()[factory] == (if idle > 0 then idle - 1 else 0) + old(building)[factory]
      ensures forall s | s in sockets :: s.factory != factory
      ensures forall f | f != factory :: Owned()[f] == old(Owned())[f]
    {
      DropIdle(factory);
      assert forall f | f != factory :: Owned()[f] == old(Owned())[f];
      ShutSocketsOf(factory, world);
    }

    /** A factory disappears: it is dropped from the idle list and all its sockets are shut; builds under way go on, and
        other factories are kept. */
    method RemoveFactory(factory: Factory, world: World)
      requires Valid()
      modifies this
      ensures Valid() && Settled() && closed == old(closed)
      ensures var idle := multiset(old(factories))[factory];
              Owned()[factory] == (if idle > 0 then idle - 1 else 0) + old(building)[factory]
      ensures forall s | s in sockets :: s.factory != factory
      ensures forall f | f != factory :: Owned()[f] == old(Owned())[f]
    {
      Disown(factory, world);
      ghost var left := sockets;
      RefreshSockets(world);
      NoneComes(sockets, left, factory);
    }
  }

  lemma NoneComes(sockets: seq<Socket>, before: seq<Socket>, factory: Factory)
    requires NoneNew(sockets, before) && forall s | s in before :: s.factory != factory
    ensures forall s | s in sockets :: s.factory != factory
  {
    forall s | s in sockets
      ensures s.factory != factory
    {
      StillThere(sockets, before, s);
    }
  }

  lemma {:induction false} NoneOwned(sockets: seq<Socket>, factory: Factory)
    requires forall s | s in sockets :: s.factory != factory
    ensures FactoriesOf(sockets)[factory] == 0
  {
    if sockets != [] {
      assert sockets[0] in sockets;
      NoneOwned(sockets[1..], factory);
    }
  }

  lemma AllOfThem(before: seq<Socket>, these: seq<Socket>, factory: Factory)
    requires forall s: Socket :: multiset(these)[s] == if s.factory == factory then multiset(before)[s] else 0
    ensures multiset(these) <= multiset(before)
    ensures forall s | s in these :: s.factory == factory
  {
    forall s | s in these
      ensures s.factory == factory
    {
      assert s in multiset(these);
    }
  }

  lemma HeadAndTail(these: seq<Socket>)
    requires these != []
    ensures multiset(these) == multiset{these[0]} + multiset(these[1..])
    ensures these[0] in multiset(these)
    ensures forall s | s in these[1..] :: s in these
  {
    assert these == [these[0]] + these[1..];
  }

  lemma Remaining(all: multiset<Socket>, left: multiset<Socket>, rest: multiset<Socket>, s: Socket)
    requires multiset{s} + rest <= all && all == left + multiset{s}
    ensures rest <= left
  {
    forall x ensures rest[x] <= left[x] {
      assert (multiset{s} + rest)[x] <= all[x];
    }
  }

  lemma NoneLeft(before: seq<Socket>, these: seq<Socket>, left: seq<Socket>, factory: Factory)
    requires forall s: Socket :: multiset(these)[s] == if s.factory == factory then multiset(before)[s] else 0
    requires multiset(before) == multiset(left) + multiset(these)
    ensures forall s | s in left :: s.factory != factory
  {
    forall s | s in left
      ensures s.factory != factory
    {
      assert s in multiset(left);
    }
  }
}
