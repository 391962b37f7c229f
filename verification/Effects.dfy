/** What each step of a run does, exactly and on every run: what is sent, what the requester is told, what the stream table
    remembers, what the application is handed, and what an error does to the connection. */
module Effects {
  import opened Results
  import opened Endpoints
  import opened Protocol

  /** A step that is possible in a state some run leads to. */
  ghost predicate Possible(steps: seq<Step>, step: Step) {
    After(steps).Some? && CanStep(After(steps).value, step)
  }

  function Outbound(s: System, atClient: bool): seq<Message> {
    if atClient then s.toServer else s.toClient
  }

  /** A frame arrives. */
  predicate Brings(s: System, step: Step, m: Message) {
    step.action.Hears? && Inbound(s, step.atClient) != [] && Inbound(s, step.atClient)[0] == m
  }

  /// The channels

  /** One frame for each thing an application does and for each timer that fires, and nothing else. Once the transport is
      closed, or the connection has closed itself, nothing is sent. */
  predicate Sends(e: Endpoint, a: Action, before: seq<Message>, after: seq<Message>) {
    if e.closed || e.closing then after == before
    else
      match a
      case Asks(p) => after == before + [Request(e.latest + 2, p)]
      case TimesOut(id) => after == before + [Cancel(id)]
      case Abandons(id) => after == before + [Cancel(id)]
      case Answers(id, p) => after == before + [Response(id, p)]
      case Refuses(id, code, p) => after == before + [Error(id, code, p)]
      case CancelsPeer(id) => after == before + [Cancel(id)]
      case Hears(_) => after == before
      case Loses => after == before
  }

  /** What each step sends to the peer. */
  lemma SendsExactly(steps: seq<Step>, step: Step)
    requires Possible(steps, step)
    ensures var s := After(steps).value;
            Sends(Local(s, step.atClient), step.action,
                  Outbound(s, step.atClient), Outbound(Next(s, step), step.atClient))
  {
    var s := After(steps).value;
    OutboundTurn(s, step);
    SendsHere(Local(s, step.atClient), Inbound(s, step.atClient), Outbound(s, step.atClient), step.action);
  }

  lemma SendsHere(e: Endpoint, incoming: seq<Message>, before: seq<Message>, a: Action)
    requires Enabled(e, incoming, a)
    ensures Sends(e, a, before, Outgoing(e, before, Act(e, incoming, a).sent))
  {
    assert before + [] == before;
  }

  lemma OutboundTurn(s: System, step: Step)
    requires CanStep(s, step)
    ensures Enabled(Local(s, step.atClient), Inbound(s, step.atClient), step.action)
    ensures var e := Local(s, step.atClient);
            Outbound(Next(s, step), step.atClient)
            == Outgoing(e, Outbound(s, step.atClient), Act(e, Inbound(s, step.atClient), step.action).sent)
  {}

  /** The peer is not there to see it: a step changes neither its state nor, but for the one frame that is heard, what is
      under way to this end. */
  lemma PeerUntouched(steps: seq<Step>, step: Step)
    requires Possible(steps, step)
    ensures var (s, t) := (After(steps).value, Next(After(steps).value, step));
            && Local(t, !step.atClient) == Local(s, !step.atClient)
            && if step.action.Hears? then Inbound(s, step.atClient) != []
                                          && Inbound(t, step.atClient) == Inbound(s, step.atClient)[1..]
               else Inbound(t, step.atClient) == Inbound(s, step.atClient)
  {
    InboundTurn(After(steps).value, step);
  }

  lemma InboundTurn(s: System, step: Step)
    requires CanStep(s, step)
    ensures var t := Next(s, step);
            && Local(t, !step.atClient) == Local(s, !step.atClient)
            && if step.action.Hears? then Inbound(s, step.atClient) != []
                                          && Inbound(t, step.atClient) == Inbound(s, step.atClient)[1..]
               else Inbound(t, step.atClient) == Inbound(s, step.atClient)
  {}

  /// What the requester is told

  /** The events that a step at the requester's own end adds to those of request `id`. */
  function News(step: Action, incoming: seq<Message>, id: int, log: seq<Event>): seq<Event>
    requires step.Hears? ==> incoming != []
  {
    match step
    case TimesOut(x) => if x == id then [OnTimeout, OnTerminate] else []
    case Loses => if log == [] then [OnError(None, NOTHING), OnTerminate] else []
    case Hears(_) => if log == [] then HeardNews(incoming[0], id) else []
    case _ => []
  }

  function HeardNews(m: Message, id: int): seq<Event> {
    match m
    case Response(x, p) => if x == id then [OnResponse(p), OnTerminate] else []
    case Error(x, code, p) =>
      if x != id then [] else if code == 0x101 then [OnTerminate] else [OnError(Some(code), p), OnTerminate]
    case Cancel(x) => if x == id then [OnCancel, OnTerminate] else []
    case _ => []
  }

  lemma ToldHere(s: Stream, m: Message, id: int)
    requires Pending(s)
    ensures Told(s, m, id).log == HeardNews(m, id)
  {
    match m {
      case Response(x, p) => assert [] + p.data == p.data && [] + p.metadata == p.metadata;
      case _ =>
    }
  }

  lemma NewsHere(e: Endpoint, incoming: seq<Message>, a: Action, id: int)
    requires Lifecycle(e) && Enabled(e, incoming, a) && id in e.own
    ensures Acted(e, incoming, a, id).log == e.own[id].log + News(a, incoming, id, e.own[id].log)
  {
    var s := e.own[id];
    assert s.log + [] == s.log;
    if s.log == [] {
      assert Pending(s) && id in e.table;
      if a.Hears? {
        ToldHere(s, incoming[0], id);
      }
    } else {
      FinishedHere(e, incoming, a, id);
    }
  }

  /** What a step tells the requester of each of its requests. Nothing the peer does tells it anything at once. */
  lemma NewsExactly(steps: seq<Step>, step: Step, atClient: bool, id: int)
    requires Possible(steps, step) && id in Local(After(steps).value, atClient).own
    ensures var (s, t) := (After(steps).value, Next(After(steps).value, step));
            var log := Local(s, atClient).own[id].log;
            && id in Local(t, atClient).own
            && Local(t, atClient).own[id].log
               == log + if step.atClient == atClient then News(step.action, Inbound(s, atClient), id, log) else []
  {
    var outgoing, incoming := EndOf(steps, atClient);
    var e := Local(After(steps).value, atClient);
    if step.atClient == atClient {
      ActedOn(e, incoming, step.action, id);
      NewsHere(e, incoming, step.action, id);
    }
    assert e.own[id].log + [] == e.own[id].log;
  }

  /** A request starts untouched, under the next id, with its timer running and its payload remembered. */
  lemma AskExactly(steps: seq<Step>, step: Step)
    requires Possible(steps, step)
    ensures var (s, t) := (After(steps).value, Next(After(steps).value, step));
            var (e, later) := (Local(s, step.atClient), Local(t, step.atClient));
            match step.action
            case Asks(p) =>
              && later.latest == e.latest + 2 && later.own.Keys == e.own.Keys + {e.latest + 2}
              && later.own[e.latest + 2].log == [] && later.own[e.latest + 2].armed
              && later.asked == e.asked[e.latest + 2 := p]
            case _ => later.latest == e.latest && later.own.Keys == e.own.Keys && later.asked == e.asked
  {
    var s := After(steps).value;
    var e, incoming := Local(s, step.atClient), Inbound(s, step.atClient);
    LocalTurn(s, step);
    match step.action {
      case Asks(p) => AskedHere(e, p);
      case Hears(watched) => HearingKeepsOwn(e, incoming[0], watched);
      case Loses => assert CloseTransport(e).own.Keys == e.own.Keys;
      case _ =>
    }
  }

  /** The end that takes the step does what its handler does. */
  lemma LocalTurn(s: System, step: Step)
    requires CanStep(s, step)
    ensures Enabled(Local(s, step.atClient), Inbound(s, step.atClient), step.action)
    ensures Local(Next(s, step), step.atClient)
         == Act(Local(s, step.atClient), Inbound(s, step.atClient), step.action).endpoint
  {}

  lemma AskedHere(e: Endpoint, p: Payload)
    ensures var later := Ask(e, p).endpoint;
            && later.latest == e.latest + 2 && later.own.Keys == e.own.Keys + {e.latest + 2}
            && later.own[e.latest + 2].log == [] && later.own[e.latest + 2].armed
            && later.asked == e.asked[e.latest + 2 := p]
  {}

  lemma HearingKeepsOwn(e: Endpoint, m: Message, watched: bool)
    ensures var later := Receive(e, m, watched);
            later.own.Keys == e.own.Keys && later.latest == e.latest && later.asked == e.asked
  {
    match m {
      case Error(id, code, p) => ErrorKeepsOwn(e, id, code, p, watched);
      case Response(id, p) => ResolvingKeepsOwn(e, id, if id in e.own then SetResponse(e.own[id], p) else STARTED);
      case Cancel(id) => ResolvingKeepsOwn(e, id, if id in e.own then SetCancel(e.own[id]) else STARTED);
      case _ =>
    }
  }

  lemma ErrorKeepsOwn(e: Endpoint, id: int, code: nat, p: Payload, watched: bool)
    ensures var later := ReceiveError(e, id, code, p, watched);
            && later.own.Keys == e.own.Keys && later.latest == e.latest && later.asked == e.asked
            && later.answered == e.answered && later.refused == e.refused && later.served == e.served
            && (e.closed || e.closing ==> later.closed || later.closing)
  {}

  lemma ResolvingKeepsOwn(e: Endpoint, id: int, s: Stream)
    ensures var later := Resolve(e, id, s);
            && later.own.Keys == e.own.Keys && later.latest == e.latest && later.asked == e.asked
            && later.answered == e.answered && later.refused == e.refused && later.served == e.served
  {}

  /// Fragments

  function AllFragments(s: Stream, fragments: seq<Payload>): Stream {
    if fragments == [] then s
    else SetResponse(AllFragments(s, fragments[..|fragments| - 1]), fragments[|fragments| - 1])
  }

  function Assembled(fragments: seq<Payload>): Payload {
    if fragments == [] then NOTHING
    else
      var (init, last) := (Assembled(fragments[..|fragments| - 1]), fragments[|fragments| - 1]);
      Payload(init.data + last.data, init.metadata + last.metadata)
  }

  /** Fragments told to a new stream: the k-th response event carries everything that has come up to it. A stream that has
      expired hears nothing. */
  lemma {:induction false} FragmentsJoin(fragments: seq<Payload>)
    ensures var s := AllFragments(STARTED, fragments);
            && s.response == Assembled(fragments) && !s.expired
            && (s.armed <==> fragments == [])
            && |s.log| == 2 * |fragments|
            && forall k | 0 <= k < |fragments| ::
                 s.log[2 * k] == OnResponse(Assembled(fragments[..k + 1])) && s.log[2 * k + 1] == OnTerminate
  {
    if fragments != [] {
      var n := |fragments| - 1;
      var before := fragments[..n];
      FragmentsJoin(before);
      var s := AllFragments(STARTED, before);
      forall k | 0 <= k < n
        ensures s.log[2 * k] == OnResponse(Assembled(fragments[..k + 1])) && s.log[2 * k + 1] == OnTerminate
      {
        assert before[..k + 1] == fragments[..k + 1];
      }
      assert fragments[..n + 1] == fragments;
    }
  }

  lemma {:induction false} ExpiredIsDeaf(s: Stream, fragments: seq<Payload>)
    requires s.expired
    ensures AllFragments(s, fragments) == s
  {
    if fragments != [] {
      ExpiredIsDeaf(s, fragments[..|fragments| - 1]);
    }
  }

  /// What the stream table remembers

  /** Whether `id` is in the table of the end that takes the step, after it. */
  predicate Remembered(e: Endpoint, incoming: seq<Message>, a: Action, id: int)
    requires a.Hears? ==> incoming != []
  {
    match a
    case Asks(_) => id in e.table || id == e.latest + 2
    case TimesOut(x) => id in e.table && id != x
    case Answers(x, _) => id in e.table && id != x
    case Loses => id in e.table && (id == 0 || id in e.own)
    case Hears(_) => RememberedHearing(e, incoming[0], id)
    case _ => id in e.table
  }

  /** An error of a code nobody can listen to, for a request that has ended, leaves a stream behind. */
  predicate RememberedHearing(e: Endpoint, m: Message, id: int) {
    match m
    case Setup => id in e.table || id == 0
    case Request(x, _) => id in e.table || (id == x && (e.isSetup || e.client))
    case Response(x, _) => id in e.table && id != x
    case Cancel(x) => id in e.table && id != x
    case Error(x, code, _) =>
      if id == x then id !in e.table && code !in {0x1, 0x2, 0x3, 0x101, 0x201, 0x202, 0x203, 0x204, 0xFFFFFFFF}
      else id in e.table
  }

  /** What each step does to the stream table of its end. */
  lemma TableExactly(steps: seq<Step>, step: Step, id: int)
    requires Possible(steps, step)
    ensures var s := After(steps).value;
            id in Local(Next(s, step), step.atClient).table
            <==> Remembered(Local(s, step.atClient), Inbound(s, step.atClient), step.action, id)
  {
    var outgoing, incoming := EndOf(steps, step.atClient);
    var (e, peer) := (Local(After(steps).value, step.atClient), Local(After(steps).value, !step.atClient));
    LocalTurn(After(steps).value, step);
    match step.action {
      case Hears(watched) =>
        if incoming[0].Error? {
          ErrorIsForOwn(e, peer, incoming);
          ErrorTable(e, incoming[0], watched, id);
        } else {
          OtherTable(e, incoming[0], watched, id);
        }
      case _ => QuietTable(e, incoming, step.action, id);
    }
  }

  lemma QuietTable(e: Endpoint, incoming: seq<Message>, a: Action, id: int)
    requires Enabled(e, incoming, a) && !a.Hears?
    ensures id in Act(e, incoming, a).endpoint.table <==> Remembered(e, incoming, a, id)
  {}

  lemma ErrorTable(e: Endpoint, m: Message, watched: bool, id: int)
    requires m.Error? && m.id in e.own && m.id > 0
    ensures id in Receive(e, m, watched).table <==> RememberedHearing(e, m, id)
  {}

  lemma OtherTable(e: Endpoint, m: Message, watched: bool, id: int)
    requires !m.Error?
    ensures id in Receive(e, m, watched).table <==> RememberedHearing(e, m, id)
  {}

  lemma ErrorIsForOwn(e: Endpoint, peer: Endpoint, incoming: seq<Message>)
    requires Lifecycle(peer) && Lifecycle(e) && Backed(peer, e)
    requires Channel(peer, e, incoming) && incoming != [] && incoming[0].Error?
    ensures incoming[0].id in e.own && incoming[0].id > 0
  {
    var m := incoming[0];
    assert Sendable(peer, e, m);
    assert (m.id, m.code, m.payload) in peer.refused;
    assert m.id in peer.served && m.id in e.asked && m.id in e.own;
  }

  /// What the application is handed, and what it has answered

  /** Requests are handed over as they came, by an end that is set up or is the client. Answers are recorded as given. */
  lemma HandedExactly(steps: seq<Step>, step: Step)
    requires Possible(steps, step)
    ensures var (s, t) := (After(steps).value, Next(After(steps).value, step));
            var (e, later) := (Local(s, step.atClient), Local(t, step.atClient));
            && (if step.action.Hears? && Inbound(s, step.atClient)[0].Request? && (e.isSetup || e.client) then
                  var m := Inbound(s, step.atClient)[0];
                  later.served == e.served[m.id := m.payload]
                else
                  later.served == e.served)
            && later.answered
               == e.answered + (if step.action.Answers? then {(step.action.id, step.action.payload)} else {})
            && later.refused
               == e.refused + (if step.action.Refuses? then
                                 {(step.action.id, step.action.code, step.action.errorPayload)}
                               else {})
  {
    match step.action {
      case Hears(watched) =>
        HearingHands(Local(After(steps).value, step.atClient), Inbound(After(steps).value, step.atClient)[0], watched);
      case _ =>
    }
  }

  lemma HearingHands(e: Endpoint, m: Message, watched: bool)
    ensures var later := Receive(e, m, watched);
            && later.answered == e.answered && later.refused == e.refused
            && later.served == if m.Request? && (e.isSetup || e.client) then e.served[m.id := m.payload] else e.served
  {
    match m {
      case Error(id, code, p) => ErrorKeepsOwn(e, id, code, p, watched);
      case Response(id, p) => ResolvingKeepsOwn(e, id, if id in e.own then SetResponse(e.own[id], p) else STARTED);
      case Cancel(id) => ResolvingKeepsOwn(e, id, if id in e.own then SetCancel(e.own[id]) else STARTED);
      case _ =>
    }
  }

  /** On no run is a request ignored: the server has been set up by the time it hears one. */
  lemma NoRequestIsEarly(steps: seq<Step>, step: Step)
    requires Possible(steps, step) && step.action.Hears?
    requires Inbound(After(steps).value, step.atClient)[0].Request?
    ensures var s := After(steps).value;
            var m := Inbound(s, step.atClient)[0];
            && m.id !in Local(s, step.atClient).served
            && Local(Next(s, step), step.atClient).served == Local(s, step.atClient).served[m.id := m.payload]
  {
    RunKeepsInv(steps);
    HandedExactly(steps, step);
    var s := After(steps).value;
    var m := Inbound(s, step.atClient)[0];
    assert Sendable(Local(s, !step.atClient), Local(s, step.atClient), m);
  }

  /** Off every run, a request that reaches a server before SETUP changes nothing, and any other is handed over. */
  lemma EarlyRequest(e: Endpoint, id: int, p: Payload, watched: bool)
    ensures !e.client && !e.isSetup ==> Receive(e, Request(id, p), watched) == e
    ensures e.client || e.isSetup ==>
              var later := Receive(e, Request(id, p), watched);
              id in later.table && id in later.served && later.served[id] == p
  {}

  /// The connection

  /** The connection announces the codes that concern it, and closes itself when nobody listens. A code that concerns
      neither the connection nor the stream is thrown when the request has ended, and this end does nothing more. */
  lemma ConnectionExactly(steps: seq<Step>, step: Step)
    requires Possible(steps, step)
    ensures var (s, t) := (After(steps).value, Next(After(steps).value, step));
            var (e, later) := (Local(s, step.atClient), Local(t, step.atClient));
            && later.client == e.client
            && later.closed == (e.closed || step.action.Loses?)
            && if step.action.Hears? && Inbound(s, step.atClient)[0].Error? then
                 var m := Inbound(s, step.atClient)[0];
                 var concerned := m.code in {0x1, 0x2, 0x3, 0x101};
                 && later.alarms == e.alarms + (if concerned then [m.code] else [])
                 && later.closing == (e.closing || (concerned && !step.action.watched))
                 && m.id in e.own
                 && later.faulted == (e.own[m.id].log != [] && !concerned
                                      && m.code !in {0x201, 0x202, 0x203, 0x204, 0xFFFFFFFF})
                 && later.isSetup == e.isSetup
               else
                 && later.alarms == e.alarms && later.closing == e.closing && later.faulted == e.faulted
                 && later.isSetup == (e.isSetup || Brings(s, step, Setup))
  {
    var s := After(steps).value;
    var outgoing, incoming := EndOf(steps, step.atClient);
    var (e, peer) := (Local(s, step.atClient), Local(s, !step.atClient));
    LocalTurn(s, step);
    match step.action {
      case Hears(watched) =>
        if incoming[0].Error? {
          ErrorIsForOwn(e, peer, incoming);
          ErrorHere(e, incoming[0], watched);
        } else if incoming[0].Setup? {
          SetupHere(steps, step);
        } else {
          OtherHere(e, incoming[0], watched);
        }
      case _ => QuietHere(e, incoming, step.action);
    }
  }

  lemma QuietHere(e: Endpoint, incoming: seq<Message>, a: Action)
    requires Enabled(e, incoming, a) && !a.Hears?
    ensures var later := Act(e, incoming, a).endpoint;
            && later.client == e.client && later.closed == (e.closed || a.Loses?) && later.isSetup == e.isSetup
            && later.alarms == e.alarms && later.closing == e.closing && later.faulted == e.faulted
  {}

  lemma OtherHere(e: Endpoint, m: Message, watched: bool)
    requires !m.Error? && !m.Setup?
    ensures var later := Receive(e, m, watched);
            && later.client == e.client && later.closed == e.closed && later.isSetup == e.isSetup
            && later.alarms == e.alarms && later.closing == e.closing && later.faulted == e.faulted
  {}

  /** On every run SETUP reaches the server alone, and once. */
  lemma SetupHere(steps: seq<Step>, step: Step)
    requires Possible(steps, step) && Brings(After(steps).value, step, Setup)
    ensures var e := Local(After(steps).value, step.atClient);
            && !e.client && !e.isSetup
            && Receive(e, Setup, step.action.watched) == e.(table := e.table + {0}, isSetup := true)
  {
    RunKeepsInv(steps);
    var s := After(steps).value;
    assert Sendable(Local(s, !step.atClient), Local(s, step.atClient), Setup);
  }

  lemma ErrorHere(e: Endpoint, m: Message, watched: bool)
    requires Lifecycle(e) && !e.closed && !e.faulted && m.Error? && m.id in e.own
    ensures var later := Receive(e, m, watched);
            var concerned := m.code in {0x1, 0x2, 0x3, 0x101};
            && later.client == e.client && later.closed == e.closed && later.isSetup == e.isSetup
            && later.alarms == e.alarms + (if concerned then [m.code] else [])
            && later.closing == (e.closing || (concerned && !watched))
            && later.faulted == (e.own[m.id].log != [] && !concerned
                                 && m.code !in {0x201, 0x202, 0x203, 0x204, 0xFFFFFFFF})
  {
    assert e.alarms + [] == e.alarms;
    assert e.own[m.id].log != [] ==> m.id !in e.table;
    assert e.own[m.id].log == [] ==> m.id in e.table && !e.own[m.id].expired;
  }

  /** On every run errors are about this end's own requests. Off every run, one about a request of the peer's is heard by
      the connection and ends it; one about the setup stream, or about a stream that is not there, is not heard by
      anybody, and leaves that stream in the table when its code is neither the connection's nor the stream's. */
  lemma ErrorElsewhere(e: Endpoint, id: int, code: nat, p: Payload, watched: bool)
    requires id !in e.own
    ensures var later := Receive(e, Error(id, code, p), watched);
            var unheard := (id == 0 || id !in e.table)
                           && code !in {0x1, 0x2, 0x3, 0x101, 0x201, 0x202, 0x203, 0x204, 0xFFFFFFFF};
            && later.faulted == (e.faulted || unheard)
            && (id in later.table <==> unheard)
            && (forall x | x != id :: x in later.table <==> x in e.table)
            && later.own == e.own
            && later.alarms == e.alarms + (if code in {0x1, 0x2, 0x3, 0x101} then [code] else [])
            && later.closing == (e.closing || (code in {0x1, 0x2, 0x3, 0x101} && !watched))
  {
    assert e.alarms + [] == e.alarms;
  }

  /** On no run does a second SETUP come; off every run it is rejected, and one that reaches a client too. */
  lemma SecondSetup(e: Endpoint, watched: bool)
    ensures var later := Receive(e, Setup, watched);
            && 0 in later.table && (later.isSetup <==> e.isSetup || !e.client)
            && later.alarms == (if e.isSetup || e.client then e.alarms + [0x3] else e.alarms)
            && later.closing == (e.closing || ((e.isSetup || e.client) && !watched))
            && later.own == e.own && later.served == e.served
  {}
}
