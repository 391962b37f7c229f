/** Retrying rejected requests behind one outer stream: how many underlying requests there can be, and what the caller
    of the outer stream can see, whatever the underlying streams do. */
module ReEnqueue {

  type Error = nat

  /** How an underlying stream ends, just before its one 'terminate'. */
  datatype Ending =
    | Rejected(error: Error)     // rejected, cancelled or connection error: the filter listens
    | Reported(event: nat)       // response, timeout or another error: the bridge forwards it
    | Silent                     // nothing but terminate

  /** What the caller sees, with the number of the underlying stream it came from. */
  datatype Seen = Event(source: nat, event: nat) | Failure(source: nat, error: Error) | Terminate(source: nat)

  /** One filtered request: the retry counter, which underlying streams have ended, the one the bridge is attached to,
      and what the caller has seen. */
  datatype Filter = Filter(n: nat, ended: seq<bool>, attached: nat, seen: seq<Seen>)

  const OPENED := Filter(1, [false], 0, [])

  /** `opts.maxReEnqueue || 3`. */
  function Limit(maxReEnqueue: nat): nat {
    if maxReEnqueue == 0 then 3 else maxReEnqueue
  }

  /** The number of tries allowed right now: fewer, possibly none, when many requests are being retried. */
  function Allowed(maxReEnqueue: nat, maxRate: real, rate: real): real {
    var limit := Limit(maxReEnqueue) as real;
    if rate > 0.0 && maxRate / rate < limit then maxRate / rate else limit
  }

  predicate MayRetry(f: Filter, maxReEnqueue: nat, maxRate: real, rate: real) {
    f.n as real < Allowed(maxReEnqueue, maxRate, rate)
  }

  /** The filter's reaction to a rejection of stream `k`: a new underlying request, or the error is passed on. */
  function Retried(f: Filter, k: nat, error: Error, may: bool): Filter {
    if may then f.(n := f.n + 1, ended := f.ended + [false], attached := |f.ended|)
    else f.(n := f.n + 1, seen := f.seen + [Failure(k, error)])
  }

  function Forwarded(f: Filter, k: nat, what: Seen): Filter {
    if f.attached == k then f.(seen := f.seen + [what]) else f
  }

  /** Stream `k` ends: its outcome is announced first, then it terminates. */
  function Ended(f: Filter, k: nat, ending: Ending, may: bool): Filter
    requires k < |f.ended|
  {
    var told :=
      match ending
      case Rejected(error) => Retried(f, k, error, may)
      case Reported(event) => Forwarded(f, k, Event(k, event))
      case Silent => f;
    var over := told.(ended := told.ended[k := true]);
    Forwarded(over, k, Terminate(k))
  }

  /// Every run

  /** One underlying stream ends while the measured retry rate is `rate`. */
  datatype Happening = Happening(stream: nat, ending: Ending, rate: real)

  /** Each underlying stream ends at most once. */
  predicate CanHappen(f: Filter, h: Happening) {
    h.stream < |f.ended| && !f.ended[h.stream]
  }

  function Next(f: Filter, h: Happening, maxReEnqueue: nat, maxRate: real): Filter
    requires CanHappen(f, h)
  {
    Ended(f, h.stream, h.ending, MayRetry(f, maxReEnqueue, maxRate, h.rate))
  }

  predicate Run(f: Filter, happenings: seq<Happening>, maxReEnqueue: nat, maxRate: real)
    decreases |happenings|
  {
    happenings == [] ||
    (CanHappen(f, happenings[0])
     && Run(Next(f, happenings[0], maxReEnqueue, maxRate), happenings[1..], maxReEnqueue, maxRate))
  }

  function After(f: Filter, happenings: seq<Happening>, maxReEnqueue: nat, maxRate: real): Filter
    requires Run(f, happenings, maxReEnqueue, maxRate)
    decreases |happenings|
  {
    if happenings == [] then f
    else After(Next(f, happenings[0], maxReEnqueue, maxRate), happenings[1..], maxReEnqueue, maxRate)
  }

  /** The bridge is attached to the newest underlying stream; all others have ended; the caller has seen something only
      if that one has ended too. */
  ghost predicate Inv(f: Filter, maxReEnqueue: nat) {
    && 0 < |f.ended| <= f.n && f.attached == |f.ended| - 1
    && |f.ended| <= Limit(maxReEnqueue)
    && (forall k | 0 <= k < f.attached :: f.ended[k])
    && (!f.ended[f.attached] ==> f.seen == [])
    && (f.ended[f.attached] ==> Complete(f.seen, f.attached))
  }

  /** At most one event or failure, then one terminate, all from the same stream. */
  predicate Complete(seen: seq<Seen>, source: nat) {
    && 1 <= |seen| <= 2 && seen[|seen| - 1] == Terminate(source)
    && (|seen| == 2 ==> !seen[0].Terminate? && seen[0].source == source)
  }

  lemma NextKeepsInv(f: Filter, h: Happening, maxReEnqueue: nat, maxRate: real)
    requires Inv(f, maxReEnqueue) && CanHappen(f, h)
    ensures Inv(Next(f, h, maxReEnqueue, maxRate), maxReEnqueue)
  {
    assert h.stream == f.attached;
  }

  lemma {:induction false} RunKeepsInv(f: Filter, happenings: seq<Happening>, maxReEnqueue: nat, maxRate: real)
    requires Inv(f, maxReEnqueue) && Run(f, happenings, maxReEnqueue, maxRate)
    ensures Inv(After(f, happenings, maxReEnqueue, maxRate), maxReEnqueue)
    decreases |happenings|
  {
    if happenings != [] {
      NextKeepsInv(f, happenings[0], maxReEnqueue, maxRate);
      RunKeepsInv(Next(f, happenings[0], maxReEnqueue, maxRate), happenings[1..], maxReEnqueue, maxRate);
    }
  }

  function Terminates(seen: seq<Seen>): nat {
    if seen == [] then 0 else (if seen[0].Terminate? then 1 else 0) + Terminates(seen[1..])
  }

  function Running(ended: seq<bool>): nat {
    if ended == [] then 0 else (if ended[0] then 0 else 1) + Running(ended[1..])
  }

  lemma {:induction false} RunningBefore(ended: seq<bool>)
    requires ended != [] && forall k | 0 <= k < |ended| - 1 :: ended[k]
    ensures Running(ended) == if ended[|ended| - 1] then 0 else 1
  {
    if |ended| > 1 {
      RunningBefore(ended[1..]);
    } else {
      assert ended[1..] == [];
    }
  }

  lemma CompleteTerminatesOnce(seen: seq<Seen>, source: nat)
    requires Complete(seen, source)
    ensures Terminates(seen) == 1
  {
    if |seen| == 1 {
      assert seen[1..] == [];
    } else {
      assert seen[1..][0] == Terminate(source) && seen[1..][1..] == [];
      assert Terminates(seen[1..]) == 1;
    }
  }

  /** Retries, for every run of one filtered request: never more underlying requests than the limit, never two running at
      once; the caller sees nothing while one is running and exactly one terminate, the last thing it sees, when none is;
      and all of it comes from the last underlying stream, never from an abandoned one. */
  lemma RetriesAreInvisible(happenings: seq<Happening>, maxReEnqueue: nat, maxRate: real)
    requires Run(OPENED, happenings, maxReEnqueue, maxRate)
    ensures var f := After(OPENED, happenings, maxReEnqueue, maxRate);
            && 1 <= |f.ended| <= Limit(maxReEnqueue)
            && Running(f.ended) <= 1
            && Terminates(f.seen) == 1 - Running(f.ended)
            && (f.seen != [] ==> f.seen[|f.seen| - 1].Terminate?)
            && (forall i | 0 <= i < |f.seen| :: f.seen[i].source == |f.ended| - 1)
  {
    RunKeepsInv(OPENED, happenings, maxReEnqueue, maxRate);
    var f := After(OPENED, happenings, maxReEnqueue, maxRate);
    RunningBefore(f.ended);
    if f.seen != [] {
      CompleteTerminatesOnce(f.seen, f.attached);
    }
  }

  /** The brake: a rejected request is tried again exactly while tries are left and the retry rate, weighted by the tries
      already made, is below the allowed rate. */
  lemma BrakeExactly(f: Filter, maxReEnqueue: nat, maxRate: real, rate: real)
    requires rate >= 0.0 && f.n >= 1
    ensures MayRetry(f, maxReEnqueue, maxRate, rate)
       <==> f.n < Limit(maxReEnqueue) && (rate > 0.0 ==> f.n as real * rate < maxRate)
    ensures rate >= maxRate && rate > 0.0 ==> !MayRetry(f, maxReEnqueue, maxRate, rate)
  {
    if rate > 0.0 {
      QuotientBelow(f.n as real, maxRate, rate);
      Scaled(f.n, rate);
    }
  }

  /** Tries are left, and the retry rate, weighted by the tries already made, is below the allowed rate. */
  predicate TriesAgain(f: Filter, maxReEnqueue: nat, maxRate: real, rate: real) {
    f.n < (if maxReEnqueue == 0 then 3 else maxReEnqueue) && (rate > 0.0 ==> f.n as real * rate < maxRate)
  }

  /** On every run, an underlying stream that may still end is the newest one, and the caller has seen nothing yet. */
  lemma NothingSeenYet(happenings: seq<Happening>, h: Happening, maxReEnqueue: nat, maxRate: real)
    requires Run(OPENED, happenings, maxReEnqueue, maxRate)
    requires CanHappen(After(OPENED, happenings, maxReEnqueue, maxRate), h)
    ensures var f := After(OPENED, happenings, maxReEnqueue, maxRate);
            f.n >= 1 && f.seen == [] && h.stream == f.attached == |f.ended| - 1
  {
    RunKeepsInv(OPENED, happenings, maxReEnqueue, maxRate);
  }

  /** What a rejection does, on every run: while the request is tried again there is one more underlying stream, running,
      and the caller sees nothing. Otherwise no stream is added, and the caller sees the failure and terminate. */
  lemma RejectionExactly(happenings: seq<Happening>, h: Happening, maxReEnqueue: nat, maxRate: real)
    requires Run(OPENED, happenings, maxReEnqueue, maxRate)
    requires CanHappen(After(OPENED, happenings, maxReEnqueue, maxRate), h)
    requires h.ending.Rejected? && h.rate >= 0.0
    ensures var f := After(OPENED, happenings, maxReEnqueue, maxRate);
            var after := Next(f, h, maxReEnqueue, maxRate);
            && after.n == f.n + 1
            && if TriesAgain(f, maxReEnqueue, maxRate, h.rate) then
                 && after.ended == f.ended[h.stream := true] + [false]
                 && after.attached == |f.ended|
                 && after.seen == []
               else
                 && after.ended == f.ended[h.stream := true]
                 && after.seen == [Failure(h.stream, h.ending.error), Terminate(h.stream)]
  {
    NothingSeenYet(happenings, h, maxReEnqueue, maxRate);
    BrakeExactly(After(OPENED, happenings, maxReEnqueue, maxRate), maxReEnqueue, maxRate, h.rate);
  }

  /** Any other ending reaches the caller as it is, with terminate behind it, and nothing is tried again. */
  lemma OutcomeExactly(happenings: seq<Happening>, h: Happening, maxReEnqueue: nat, maxRate: real)
    requires Run(OPENED, happenings, maxReEnqueue, maxRate)
    requires CanHappen(After(OPENED, happenings, maxReEnqueue, maxRate), h)
    requires !h.ending.Rejected?
    ensures var f := After(OPENED, happenings, maxReEnqueue, maxRate);
            var after := Next(f, h, maxReEnqueue, maxRate);
            && after.n == f.n && after.ended == f.ended[h.stream := true]
            && after.seen == (if h.ending.Reported? then [Event(h.stream, h.ending.event)] else []) + [Terminate(h.stream)]
  {
    NothingSeenYet(happenings, h, maxReEnqueue, maxRate);
  }

  lemma QuotientBelow(n: real, a: real, b: real)
    requires b > 0.0
    ensures n < a / b <==> n * b < a
  {
    var q := a / b;
    assert q * b == a;
    if n < q { assert (q - n) * b > 0.0; } else { assert (n - q) * b >= 0.0; }
  }

  lemma Scaled(n: nat, rate: real)
    requires n >= 1 && rate > 0.0
    ensures n as real * rate >= rate
  {
    assert (n as real - 1.0) * rate >= 0.0;
  }

  /// The filter

  class InnerStream {
    const number: nat
    var bridged: bool      // the bridge's listeners are attached
    var ended: bool

    constructor (number: nat)
      ensures this.number == number && !bridged && !ended
    {
      this.number, bridged, ended := number, false, false;
    }
  }

  class BridgeStream {
    var innerStream: InnerStream
    var seen: seq<Seen>

    constructor (stream: InnerStream)
      modifies stream`bridged
      ensures innerStream == stream && stream.bridged && seen == []
    {
      innerStream, seen := stream, [];
      new;
      Attach(stream);
    }

    method Detach()
      modifies innerStream`bridged
      ensures !innerStream.bridged
    {
      innerStream.bridged := false;
    }

    method Attach(stream: InnerStream)
      modifies this`innerStream, stream`bridged
      ensures innerStream == stream && stream.bridged
    {
      innerStream := stream;
      stream.bridged := true;
    }

    method Emit(what: Seen)
      modifies this`seen
      ensures seen == old(seen) + [what]
    {
      seen := seen + [what];
    }
  }

  /** The closure of one filtered request. */
  class FilteredRequest {
    const maxReEnqueue: nat
    const maxReEnqueueRate: real
    var n: nat
    var inners: seq<InnerStream>
    const outer: BridgeStream

    ghost function Endings(): seq<bool>
      reads this, inners
    {
      seq(|inners|, i requires 0 <= i < |inners| reads this, inners => inners[i].ended)
    }

    ghost function View(): Filter
      reads this, inners, outer
    {
      Filter(n, Endings(), outer.innerStream.number, outer.seen)
    }

    /** The underlying streams are numbered in order, and the bridge listens to the one it is attached to only. */
    ghost predicate Valid()
      reads this`inners, inners, outer
    {
      && (forall i | 0 <= i < |inners| :: inners[i].number == i)
      && outer.innerStream in inners
      && (forall i | 0 <= i < |inners| :: inners[i].bridged <==> i == outer.innerStream.number)
    }

    constructor (maxReEnqueue: nat, maxReEnqueueRate: real)
      ensures Valid() && View() == OPENED && fresh(outer) && fresh(inners)
      ensures this.maxReEnqueue == maxReEnqueue && this.maxReEnqueueRate == maxReEnqueueRate
    {
      this.maxReEnqueue, this.maxReEnqueueRate := maxReEnqueue, maxReEnqueueRate;
      var inner := new InnerStream(0);
      var bridge := new BridgeStream(inner);
      inners, outer, n := [inner], bridge, 1;
    }

    /** A rejection has been heard on stream `k`, while the retry rate is `rate`. */
    method Retry(k: nat, error: Error, rate: real)
      requires Valid() && k < |inners|
      modifies this`n, this`inners, outer, inners
      ensures Valid() && |inners| >= |old(inners)| && inners[..|old(inners)|] == old(inners)
      ensures View() == Retried(old(View()), k, error, MayRetry(old(View()), maxReEnqueue, maxReEnqueueRate, rate))
      ensures forall i | |old(inners)| <= i < |inners| :: fresh(inners[i])
    {
      var max := Limit(maxReEnqueue) as real;
      if rate > 0.0 {
        if maxReEnqueueRate / rate < max {
          max := maxReEnqueueRate / rate;
        }
      }
      if n as real < max {
        outer.Detach();
        var retryStream := new InnerStream(|inners|);
        outer.Attach(retryStream);
        ghost var endings := Endings();
        inners := inners + [retryStream];
        assert Endings() == endings + [false];
      } else {
        outer.Emit(Failure(k, error));
      }
      n := n + 1;
    }

    /** Stream `k` ends. The bridge's listeners hear it only while they are attached to it. */
    method OnEnding(k: nat, ending: Ending, rate: real)
      requires Valid() && k < |inners| && !inners[k].ended
      modifies this`n, this`inners, outer, inners
      ensures Valid()
      ensures View() == Ended(old(View()), k, ending, MayRetry(old(View()), maxReEnqueue, maxReEnqueueRate, rate))
    {
      var stream := inners[k];
      match ending {
        case Rejected(error) => Retry(k, error, rate);
        case Reported(event) => if stream.bridged { outer.Emit(Event(k, event)); }
        case Silent =>
      }
      EndStream(stream);
      if stream.bridged {
        outer.Emit(Terminate(k));
      }
    }

    method EndStream(stream: InnerStream)
      requires Valid() && stream in inners
      modifies stream`ended
      ensures Valid() && Endings() == old(Endings())[stream.number := true]
    {
      stream.ended := true;
      assert forall i | 0 <= i < |inners| && i != stream.number :: inners[i] != stream;
    }
  }
}
