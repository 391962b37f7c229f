/** A socket that closes only when nothing is outstanding: which calls of the underlying close happen on every run. */
module Draining {
  import opened Results

  /** A close callback, told apart by a number. `None` is a close without callback. */
  type Callback = Option<nat>

  /** `timer` is the last drain timer set; `armed` holds the callback of every drain timer still running; `closes` lists
      the calls of the underlying close, with the callback passed on. */
  datatype Drain = Drain(
    pendings: nat, callback: Callback, timer: nat, armed: map<nat, Callback>, timers: nat, closes: seq<Callback>)

  const IDLE := Drain(0, None, 0, map[], 0, [])

  datatype Event = Request | Terminate | Close(callback: Callback) | Timer(timer: nat)

  predicate Possible(d: Drain, e: Event) {
    match e
    case Request => true
    case Terminate => d.pendings > 0
    case Close(_) => true
    case Timer(t) => t in d.armed
  }

  function Closed(d: Drain, callback: Callback): Drain {
    if d.pendings == 0 then d.(closes := d.closes + [callback])
    else d.(callback := callback, timer := d.timers, armed := d.armed[d.timers := callback], timers := d.timers + 1)
  }

  function Terminated(d: Drain): Drain
    requires d.pendings > 0
  {
    var left := d.(pendings := d.pendings - 1);
    if left.callback.Some? && left.pendings == 0 then
      var done := Closed(left, left.callback);
      done.(armed := done.armed - {done.timer})
    else left
  }

  function Fired(d: Drain, timer: nat): Drain
    requires timer in d.armed
  {
    d.(armed := d.armed - {timer}, callback := None, closes := d.closes + [d.armed[timer]])
  }

  function Step(d: Drain, e: Event): Drain
    requires Possible(d, e)
  {
    match e
    case Request => d.(pendings := d.pendings + 1)
    case Terminate => Terminated(d)
    case Close(callback) => Closed(d, callback)
    case Timer(t) => Fired(d, t)
  }

  function After(d: Drain, events: seq<Event>): Option<Drain>
    decreases |events|
  {
    if events == [] then Some(d)
    else if Possible(d, events[0]) then After(Step(d, events[0]), events[1..])
    else None
  }

  /// Counting

  function Requests(events: seq<Event>): nat {
    if events == [] then 0 else (if events[0].Request? then 1 else 0) + Requests(events[1..])
  }

  function Terminates(events: seq<Event>): nat {
    if events == [] then 0 else (if events[0].Terminate? then 1 else 0) + Terminates(events[1..])
  }

  /** On every run the counter is the number of requests that have not terminated. */
  lemma {:induction false} PendingsAreUnterminated(d: Drain, events: seq<Event>)
    requires After(d, events).Some?
    ensures After(d, events).value.pendings == d.pendings + Requests(events) - Terminates(events)
    decreases |events|
  {
    if events != [] {
      PendingsAreUnterminated(Step(d, events[0]), events[1..]);
    }
  }

  /** Requests that have not terminated yet. */
  function Outstanding(events: seq<Event>): int {
    Requests(events) - Terminates(events)
  }

  /** What each event does after any run, however many closes there have been. The underlying close runs at once for a
      close with nothing outstanding, for the terminate of the last outstanding request if a callback is kept, with that
      callback, and for every drain timer, with the callback it was set for. A close that has to wait keeps its callback
      and sets one more timer, which the last terminate clears again; the timer forgets whatever callback is kept. */
  lemma EventExactly(events: seq<Event>, e: Event)
    requires After(IDLE, events).Some? && Possible(After(IDLE, events).value, e)
    ensures var (d, d') := (After(IDLE, events).value, Step(After(IDLE, events).value, e));
            && d.pendings == Outstanding(events) && d'.pendings == Outstanding(events + [e])
            && match e
               case Request => d'.closes == d.closes && d'.callback == d.callback && d'.armed == d.armed
               case Terminate =>
                 && d'.callback == d.callback
                 && if Outstanding(events) == 1 && d.callback.Some? then
                      d'.closes == d.closes + [d.callback] && d'.armed.Keys == d.armed.Keys - {d.timer}
                    else d'.closes == d.closes && d'.armed == d.armed
               case Close(callback) =>
                 if Outstanding(events) == 0 then
                   d'.closes == d.closes + [callback] && d'.callback == d.callback && d'.armed == d.armed
                 else
                   && d'.closes == d.closes && d'.callback == callback && d'.timer !in d.armed
                   && d'.armed == d.armed[d'.timer := callback]
               case Timer(t) =>
                 d'.closes == d.closes + [d.armed[t]] && d'.callback == None && d'.armed == d.armed - {t}
  {
    PendingsAreUnterminated(IDLE, events);
    OneMoreEvent(events, e);
    TimersAreOld(IDLE, events);
  }

  lemma {:induction false} OneMoreEvent(events: seq<Event>, e: Event)
    ensures Requests(events + [e]) == Requests(events) + if e.Request? then 1 else 0
    ensures Terminates(events + [e]) == Terminates(events) + if e.Terminate? then 1 else 0
  {
    if events == [] {
      assert [e][1..] == [];
    } else {
      OneMoreEvent(events[1..], e);
      assert (events + [e])[1..] == events[1..] + [e];
    }
  }

  predicate OldTimers(d: Drain) {
    forall t <- d.armed :: t < d.timers
  }

  lemma {:induction false} TimersAreOld(d: Drain, events: seq<Event>)
    requires OldTimers(d) && After(d, events).Some?
    ensures OldTimers(After(d, events).value)
    decreases |events|
  {
    if events != [] {
      TimersAreOld(Step(d, events[0]), events[1..]);
    }
  }

  /// Before and after the close

  predicate BeforeClose(events: seq<Event>) {
    forall i | 0 <= i < |events| :: events[i].Request? || events[i].Terminate?
  }

  /** No second close; requests may still be made. */
  predicate AfterClose(events: seq<Event>) {
    forall i | 0 <= i < |events| :: !events[i].Close?
  }

  predicate TimedOut(events: seq<Event>) {
    exists i :: 0 <= i < |events| && events[i].Timer?
  }

  /** How often the count of outstanding requests, `n` at first, comes down to 0. */
  function Returns(n: nat, events: seq<Event>): nat
    decreases |events|
  {
    if events == [] then 0
    else
      match events[0]
      case Request => Returns(n + 1, events[1..])
      case Terminate => if n == 0 then Returns(0, events[1..])
                        else (if n == 1 then 1 else 0) + Returns(n - 1, events[1..])
      case _ => Returns(n, events[1..])
  }

  /** A return, exactly: a terminate at which as many requests have terminated as there have been. */
  lemma {:induction false} ReturnsExactly(d: Drain, events: seq<Event>, e: Event)
    requires After(d, events).Some? && Possible(After(d, events).value, e)
    ensures Returns(d.pendings, []) == 0
    ensures Returns(d.pendings, events + [e])
         == Returns(d.pendings, events)
            + if e.Terminate? && d.pendings + Outstanding(events + [e]) == 0 then 1 else 0
    decreases |events|
  {
    if events == [] {
      assert [e][1..] == [];
    } else {
      assert (events + [e])[1..] == events[1..] + [e];
      ReturnsExactly(Step(d, events[0]), events[1..], e);
    }
  }

  function Times(n: nat, callback: Callback): (s: seq<Callback>)
    ensures |s| == n && forall i | 0 <= i < n :: s[i] == callback
  {
    if n == 0 then [] else [callback] + Times(n - 1, callback)
  }

  lemma {:induction false} TimesAdd(n: nat, m: nat, callback: Callback)
    ensures Times(n, callback) + Times(m, callback) == Times(n + m, callback)
    ensures |Times(n, callback)| == n
  {
    if n > 0 {
      TimesAdd(n - 1, m, callback);
      assert Times(n, callback) + Times(m, callback) == [callback] + (Times(n - 1, callback) + Times(m, callback));
    }
  }

  predicate Untouched(d: Drain) {
    d.callback == None && d.armed == map[] && d.closes == []
  }

  lemma {:induction false} StaysUntouched(d: Drain, events: seq<Event>)
    requires Untouched(d) && BeforeClose(events) && After(d, events).Some?
    ensures Untouched(After(d, events).value)
    decreases |events|
  {
    if events != [] {
      assert BeforeClose(events[1..]);
      StaysUntouched(Step(d, events[0]), events[1..]);
    }
  }

  /** No timer is running and no callback is kept: nothing can close the underlying socket any more. */
  predicate Settled(d: Drain) {
    d.callback == None && d.armed == map[]
  }

  lemma {:induction false} SettledRun(d: Drain, events: seq<Event>)
    requires Settled(d) && AfterClose(events) && After(d, events).Some?
    ensures After(d, events).value.closes == d.closes && After(d, events).value.callback == None
    ensures !TimedOut(events)
    decreases |events|
  {
    if events != [] {
      assert !events[0].Close?;
      SettledRun(Step(d, events[0]), events[1..]);
      TimedOutSplits(events);
    }
  }

  /** The timer has been cleared, but the callback is kept: every return to 0 closes the underlying socket. */
  predicate Repeating(d: Drain, callback: Callback) {
    d.callback == callback && callback.Some? && d.armed == map[]
  }

  lemma {:induction false} RepeatingRun(d: Drain, callback: Callback, events: seq<Event>)
    requires Repeating(d, callback) && AfterClose(events) && After(d, events).Some?
    ensures After(d, events).value.closes == d.closes + Times(Returns(d.pendings, events), callback)
    ensures After(d, events).value.callback == callback && !TimedOut(events)
    decreases |events|
  {
    if events == [] {
      assert d.closes + Times(0, callback) == d.closes;
    } else {
      assert !events[0].Close?;
      var d' := Step(d, events[0]);
      assert d.armed - {d.timer} == d.armed;
      assert Repeating(d', callback);
      RepeatingRun(d', callback, events[1..]);
      TimedOutSplits(events);
      if events[0].Terminate? && d.pendings == 1 {
        var rest := Returns(0, events[1..]);
        assert d'.closes == d.closes + [callback];
        assert d'.closes + Times(rest, callback) == d.closes + Times(rest + 1, callback);
      }
    }
  }

  /** Waiting for requests to terminate, with one timer running. */
  predicate Waiting(d: Drain, callback: Callback) {
    d.callback == callback && d.armed == map[d.timer := callback] && d.closes == [] && d.timer < d.timers
  }

  /** One step of a waiting socket: the timer closes it for good; the last terminate closes it if there is a callback, and
      clears the timer; otherwise it goes on waiting. */
  lemma WaitingStep(d: Drain, callback: Callback, e: Event)
    requires Waiting(d, callback) && !e.Close? && Possible(d, e)
    ensures var d' := Step(d, e);
            if e.Timer? then Settled(d') && d'.closes == [callback]
            else if e.Terminate? && d.pendings == 1 && callback.Some? then
              Repeating(d', callback) && d'.closes == [callback]
            else Waiting(d', callback)
  {
    assert d.armed - {d.timer} == map[];
  }

  /** All that can come of a close that had to wait. */
  function ClosesOf(pendings: nat, callback: Callback, events: seq<Event>): seq<Callback> {
    if TimedOut(events) then [callback]
    else if callback.Some? then Times(Returns(pendings, events), callback)
    else []
  }

  lemma {:induction false} WaitingRun(d: Drain, callback: Callback, events: seq<Event>)
    requires Waiting(d, callback) && AfterClose(events) && After(d, events).Some?
    ensures var end := After(d, events).value;
            && end.closes == ClosesOf(d.pendings, callback, events)
            && end.callback == if TimedOut(events) then None else callback
    decreases |events|
  {
    if events != [] {
      var e, rest := events[0], events[1..];
      var d' := Step(d, e);
      assert !e.Close?;
      WaitingStep(d, callback, e);
      TimedOutSplits(events);
      if e.Timer? {
        SettledRun(d', rest);
      } else if e.Terminate? && d.pendings == 1 && callback.Some? {
        RepeatingRun(d', callback, rest);
      } else {
        WaitingRun(d', callback, rest);
      }
    }
  }

  lemma TimedOutSplits(events: seq<Event>)
    requires events != []
    ensures TimedOut(events) <==> events[0].Timer? || TimedOut(events[1..])
  {
    if TimedOut(events[1..]) {
      var i :| 0 <= i < |events[1..]| && events[1..][i].Timer?;
      assert events[i + 1].Timer?;
    }
    if i :| 0 <= i < |events| && events[i].Timer? {
      if i > 0 { assert events[1..][i - 1].Timer?; }
    }
  }

  /** The close contract, exactly, for every run with one close. With nothing outstanding the underlying close runs at once
      and never again. Otherwise it runs once if the drain timer fires; if not, and if there is a callback, it runs each
      time the last outstanding request terminates, which after later requests can be any number of times; and without a
      callback it does not run at all. */
  lemma DrainExactly(before: seq<Event>, callback: Callback, after: seq<Event>)
    requires BeforeClose(before) && AfterClose(after) && After(IDLE, before).Some?
    requires After(Closed(After(IDLE, before).value, callback), after).Some?
    ensures var atClose := After(IDLE, before).value;
            var end := After(Closed(atClose, callback), after).value;
            end.closes
            == if atClose.pendings == 0 then [callback] else ClosesOf(atClose.pendings, callback, after)
  {
    var d := After(IDLE, before).value;
    StaysUntouched(IDLE, before);
    if d.pendings == 0 {
      SettledRun(Closed(d, callback), after);
    } else {
      assert d.armed[d.timers := callback] == map[d.timers := callback];
      WaitingRun(Closed(d, callback), callback, after);
    }
  }

  /** The availability the socket reports. */
  function Available(d: Drain, underlying: real): real {
    if d.callback.Some? then 0.0 else underlying
  }

  /** Availability, exactly: 0 from a close with callback that had to wait until the drain timer fires, and what the
      underlying socket reports at any other time; in particular it stays 0 after the socket has drained and closed. */
  lemma AvailabilityExactly(before: seq<Event>, callback: Callback, after: seq<Event>, underlying: real)
    requires BeforeClose(before) && AfterClose(after) && After(IDLE, before).Some?
    requires After(Closed(After(IDLE, before).value, callback), after).Some?
    ensures Available(After(IDLE, before).value, underlying) == underlying
    ensures var atClose := After(IDLE, before).value;
            Available(After(Closed(atClose, callback), after).value, underlying)
            == if callback.Some? && atClose.pendings > 0 && !TimedOut(after) then 0.0 else underlying
  {
    var d := After(IDLE, before).value;
    StaysUntouched(IDLE, before);
    if d.pendings == 0 {
      SettledRun(Closed(d, callback), after);
    } else {
      assert d.armed[d.timers := callback] == map[d.timers := callback];
      WaitingRun(Closed(d, callback), callback, after);
    }
  }

  /// At most once

  /** No request and no close any more. */
  predicate WindingDown(events: seq<Event>) {
    forall i | 0 <= i < |events| :: events[i].Terminate? || events[i].Timer?
  }

  /** However the socket winds down from here, the underlying close has run at most once in the end. */
  ghost predicate ClosesAtMostOnce(d: Drain) {
    forall events | WindingDown(events) && After(d, events).Some? :: |After(d, events).value.closes| <= 1
  }

  lemma {:induction false} ReturnsOnce(n: nat, events: seq<Event>)
    requires WindingDown(events)
    ensures Returns(n, events) <= if n == 0 then 0 else 1
  {
    if events != [] {
      assert events[0].Terminate? || events[0].Timer?;
      assert WindingDown(events[1..]);
      ReturnsOnce(if events[0].Terminate? && n > 0 then n - 1 else n, events[1..]);
    }
  }

  /** The state some time after one close. */
  ghost predicate OneClose(d: Drain, callback: Callback) {
    exists before, after :: CameFrom(d, callback, before, after)
  }

  predicate CameFrom(d: Drain, callback: Callback, before: seq<Event>, after: seq<Event>) {
    && BeforeClose(before) && WindingDown(after) && After(IDLE, before).Some?
    && After(Closed(After(IDLE, before).value, callback), after) == Some(d)
  }

  lemma {:induction false} RunsCompose(d: Drain, first: seq<Event>, second: seq<Event>)
    requires After(d, first).Some?
    ensures After(d, first + second) == After(After(d, first).value, second)
    decreases |first|
  {
    if first == [] {
      assert first + second == second;
    } else {
      assert (first + second)[1..] == first[1..] + second;
      RunsCompose(Step(d, first[0]), first[1..], second);
    }
  }

  /** What one close leaves behind: a timer or a return that has not come yet, or one underlying close. */
  lemma OneCloseShape(d: Drain, callback: Callback, before: seq<Event>, after: seq<Event>)
    requires CameFrom(d, callback, before, after)
    ensures |d.closes| == 1 || (d.closes == [] && d.timer in d.armed && d.timer < d.timers)
  {
    var atClose := After(IDLE, before).value;
    StaysUntouched(IDLE, before);
    assert AfterClose(after);
    if atClose.pendings == 0 {
      SettledRun(Closed(atClose, callback), after);
    } else {
      assert atClose.armed[atClose.timers := callback] == map[atClose.timers := callback];
      WaitingShape(Closed(atClose, callback), callback, after);
    }
  }

  lemma {:induction false} WaitingShape(d: Drain, callback: Callback, events: seq<Event>)
    requires Waiting(d, callback) && WindingDown(events) && After(d, events).Some?
    ensures var end := After(d, events).value; |end.closes| == 1 || Waiting(end, callback)
    decreases |events|
  {
    if events != [] {
      var d', rest := Step(d, events[0]), events[1..];
      assert !events[0].Close? && WindingDown(rest);
      WaitingStep(d, callback, events[0]);
      if events[0].Timer? {
        SettledRun(d', rest);
      } else if events[0].Terminate? && d.pendings == 1 && callback.Some? {
        RepeatingRun(d', callback, rest);
        ReturnsOnce(0, rest);
        assert Returns(0, rest) == 0;
      } else {
        WaitingShape(d', callback, rest);
      }
    }
  }

  /** If no request follows, the underlying close runs at most once on every continuation as long as there is one close;
      and a second close, at any moment after the first, always leaves a continuation on which it runs twice. */
  lemma AtMostOnceExactly(d: Drain, callback: Callback, second: Callback)
    requires OneClose(d, callback)
    ensures ClosesAtMostOnce(d) && !ClosesAtMostOnce(Closed(d, second))
  {
    var before, after :| CameFrom(d, callback, before, after);
    forall events | WindingDown(events) && After(d, events).Some?
      ensures |After(d, events).value.closes| <= 1
    {
      OneCloseOnce(d, callback, before, after, events);
    }
    OneCloseShape(d, callback, before, after);
    var events := TwiceAfter(d, second);
  }

  lemma OneCloseOnce(d: Drain, callback: Callback, before: seq<Event>, after: seq<Event>, events: seq<Event>)
    requires CameFrom(d, callback, before, after) && WindingDown(events) && After(d, events).Some?
    ensures |After(d, events).value.closes| <= 1
  {
    var atClose := After(IDLE, before).value;
    RunsCompose(Closed(atClose, callback), after, events);
    assert AfterClose(after + events) && WindingDown(after + events);
    DrainExactly(before, callback, after + events);
    ReturnsOnce(atClose.pendings, after + events);
    TimesAdd(Returns(atClose.pendings, after + events), 0, callback);
  }

  lemma TwiceAfter(d: Drain, second: Callback) returns (events: seq<Event>)
    requires |d.closes| == 1 || (d.closes == [] && d.timer in d.armed && d.timer < d.timers)
    ensures WindingDown(events) && After(Closed(d, second), events).Some?
    ensures |After(Closed(d, second), events).value.closes| >= 2
  {
    var c := Closed(d, second);
    if d.closes != [] {
      if d.pendings == 0 {
        events := [];
      } else {
        events := [Timer(d.timers)];
        assert events[1..] == [];
        assert After(c, events) == After(Fired(c, d.timers), []);
      }
    } else if d.pendings == 0 {
      events := [Timer(d.timer)];
      assert events[1..] == [];
      assert After(c, events) == After(Fired(c, d.timer), []);
    } else {
      events := [Timer(d.timer), Timer(d.timers)];
      var c' := Fired(c, d.timer);
      assert events[1..] == [Timer(d.timers)] && events[1..][1..] == [];
      assert d.timers in c'.armed;
      assert After(c', events[1..]) == After(Fired(c', d.timers), []);
      assert After(c, events) == After(c', events[1..]);
    }
  }

  /** Two runs: a second close while a request is outstanding, and one close with a later request. Both close the underlying
      socket twice. */
  lemma ClosesTwice()
    ensures var end := After(IDLE, [Request, Close(Some(1)), Close(Some(2)), Terminate, Timer(0)]);
            end.Some? && end.value.closes == [Some(2), Some(1)]
    ensures var end := After(IDLE, [Request, Close(Some(1)), Terminate, Request, Terminate]);
            end.Some? && end.value.closes == [Some(1), Some(1)]
  {
    TwoCloses();
    LaterRequest();
  }

  lemma OneMore(events: seq<Event>, d: Drain, e: Event) returns (d': Drain)
    requires After(IDLE, events) == Some(d) && Possible(d, e)
    ensures d' == Step(d, e) && After(IDLE, events + [e]) == Some(d')
  {
    d' := Step(d, e);
    RunsCompose(IDLE, events, [e]);
    assert [e][1..] == [];
    assert After(d', []) == Some(d');
  }

  lemma TwoCloses()
    ensures var end := After(IDLE, [Request, Close(Some(1)), Close(Some(2)), Terminate, Timer(0)]);
            end.Some? && end.value.closes == [Some(2), Some(1)]
  {
    assert [] + [Request] == [Request];
    var d1 := OneMore([], IDLE, Request);
    var d2 := OneMore([Request], d1, Close(Some(1)));
    var d3 := OneMore([Request] + [Close(Some(1))], d2, Close(Some(2)));
    var d4 := OneMore([Request] + [Close(Some(1))] + [Close(Some(2))], d3, Terminate);
    var d5 := OneMore([Request] + [Close(Some(1))] + [Close(Some(2))] + [Terminate], d4, Timer(0));
    assert [Request] + [Close(Some(1))] + [Close(Some(2))] + [Terminate] + [Timer(0)]
        == [Request, Close(Some(1)), Close(Some(2)), Terminate, Timer(0)];
  }

  lemma LaterRequest()
    ensures var end := After(IDLE, [Request, Close(Some(1)), Terminate, Request, Terminate]);
            end.Some? && end.value.closes == [Some(1), Some(1)]
  {
    assert [] + [Request] == [Request];
    var d1 := OneMore([], IDLE, Request);
    var d2 := OneMore([Request], d1, Close(Some(1)));
    var d3 := OneMore([Request] + [Close(Some(1))], d2, Terminate);
    var d4 := OneMore([Request] + [Close(Some(1))] + [Terminate], d3, Request);
    var d5 := OneMore([Request] + [Close(Some(1))] + [Terminate] + [Request], d4, Terminate);
    assert [Request] + [Close(Some(1))] + [Terminate] + [Request] + [Terminate]
        == [Request, Close(Some(1)), Terminate, Request, Terminate];
  }

  /// The socket

  class DrainingReactiveSocket {
    var pendings: nat
    var callback: Callback
    var timer: nat
    var armed: map<nat, Callback>
    var timers: nat
    var closes: seq<Callback>

    function View(): Drain
      reads this
    {
      Drain(pendings, callback, timer, armed, timers, closes)
    }

    constructor ()
      ensures View() == IDLE
    {
      pendings, callback, timer, armed, timers, closes := 0, None, 0, map[], 0, [];
    }

    method OnRequest()
      modifies this`pendings
      ensures View() == Step(old(View()), Request)
    {
      pendings := pendings + 1;
    }

    method OnRequestComplete()
      requires pendings > 0
      modifies this
      ensures View() == Step(old(View()), Terminate)
    {
      pendings := pendings - 1;
      if callback.Some? && pendings == 0 {
        CloseWith(callback);
        armed := armed - {timer};
      }
    }

    method Availability(underlying: real) returns (a: real)
      ensures a == Available(View(), underlying)
    {
      a := if callback.Some? then 0.0 else underlying;
    }

    method CloseWith(cb: Callback)
      modifies this
      ensures View() == Closed(old(View()), cb)
    {
      if pendings == 0 {
        closes := closes + [cb];
      } else {
        callback := cb;
        timer := timers;
        armed := armed[timer := cb];
        timers := timers + 1;
      }
    }

    method OnDrainTimeout(t: nat)
      requires t in armed
      modifies this
      ensures View() == Step(old(View()), Timer(t))
    {
      var cb := armed[t];
      armed := armed - {t};
      callback := None;
      closes := closes + [cb];
    }
  }
}
