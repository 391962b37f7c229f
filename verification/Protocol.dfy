/** Two endpoints joined by two first-in first-out channels: what holds in every state they can reach. */
module Protocol {
  import opened Results
  import opened Endpoints

  datatype System = System(client: Endpoint, server: Endpoint, toServer: seq<Message>, toClient: seq<Message>)

  /** The client constructor sends SETUP before anything else. */
  const INITIAL := System(NewEndpoint(true), NewEndpoint(false), [Setup], [])

  /** What can happen at one end. */
  datatype Action =
    | Asks(payload: Payload)
    | TimesOut(id: int)
    | Abandons(id: int)                             // the requester calls cancel
    | Answers(id: int, payload: Payload)
    | Refuses(id: int, code: nat, errorPayload: Payload)
    | CancelsPeer(id: int)                          // the responder calls cancel on the stream it was handed
    | Hears(watched: bool)                          // the next frame arrives
    | Loses                                         // the transport closes

  datatype Step = Step(atClient: bool, action: Action)

  predicate Enabled(e: Endpoint, incoming: seq<Message>, a: Action) {
    !e.faulted &&
    match a
    case Asks(_) => true
    case TimesOut(id) => id in e.own && e.own[id].armed
    case Abandons(id) => id in e.own
    case Answers(id, _) => id in e.served
    case Refuses(id, _, _) => id in e.served
    case CancelsPeer(id) => id in e.served
    case Hears(_) => incoming != [] && !e.closed
    case Loses => !e.closed
  }

  function Act(e: Endpoint, incoming: seq<Message>, a: Action): Turn
    requires Enabled(e, incoming, a)
  {
    match a
    case Asks(p) => Ask(e, p)
    case TimesOut(id) => TimeOut(e, id)
    case Abandons(id) => Turn(e, [Cancel(id)])
    case Answers(id, p) => Answer(e, id, p)
    case Refuses(id, code, p) => Refuse(e, id, code, p)
    case CancelsPeer(id) => Turn(e, [Cancel(id)])
    case Hears(watched) => Turn(Receive(e, incoming[0], watched), [])
    case Loses => Turn(CloseTransport(e), [])
  }

  /** What an end writes after its transport closed, or after it closed itself, goes nowhere. */
  function Outgoing(e: Endpoint, channel: seq<Message>, sent: seq<Message>): seq<Message> {
    if e.closed || e.closing then channel else channel + sent
  }

  function Incoming(channel: seq<Message>, a: Action): seq<Message>
    requires a.Hears? ==> channel != []
  {
    if a.Hears? then channel[1..] else channel
  }

  predicate CanStep(s: System, step: Step) {
    if step.atClient then Enabled(s.client, s.toClient, step.action) else Enabled(s.server, s.toServer, step.action)
  }

  function Next(s: System, step: Step): System
    requires CanStep(s, step)
  {
    if step.atClient then
      var t := Act(s.client, s.toClient, step.action);
      System(t.endpoint, s.server, Outgoing(s.client, s.toServer, t.sent), Incoming(s.toClient, step.action))
    else
      var t := Act(s.server, s.toServer, step.action);
      System(s.client, t.endpoint, Incoming(s.toServer, step.action), Outgoing(s.server, s.toClient, t.sent))
  }

  /** The state after a run, if every step of it was possible. */
  function After(steps: seq<Step>): Option<System> {
    if steps == [] then Some(INITIAL)
    else
      var s := After(steps[..|steps| - 1]);
      var step := steps[|steps| - 1];
      if s.Some? && CanStep(s.value, step) then Some(Next(s.value, step)) else None
  }

  /// The invariant of one end

  predicate OwnId(client: bool, id: int) {
    id > 0 && id % 2 == if client then 1 else 0
  }

  /** Nothing has happened to the request: no event, timer running. */
  predicate Pending(s: Stream) {
    s == STARTED
  }

  predicate Outcome(e: Event) {
    e.OnResponse? || e.OnError? || e.OnTimeout?
  }

  /** The request is over: at most one outcome, then one terminate, and no timer left to fire. */
  predicate Over(s: Stream) {
    && !s.armed
    && (s.log == [OnTerminate] || (|s.log| == 2 && Outcome(s.log[0]) && s.log[1] == OnTerminate))
    && (s.expired <==> s.log == [OnTimeout, OnTerminate])
  }

  /** The peer has cancelled the request. The timer goes on, and the request ends once more when it fires. */
  predicate Cancelled(s: Stream) {
    if s.armed then !s.expired && s.log == [OnCancel, OnTerminate]
    else s.expired && s.log == [OnCancel, OnTerminate, OnTimeout, OnTerminate]
  }

  /** Every stream of an own request is in one of three conditions, and in the table exactly while it is pending,
      unless the end has broken down. */
  ghost predicate Streams(e: Endpoint) {
    && (forall id | id in e.own :: (Pending(e.own[id]) && id in e.table) || Over(e.own[id]) || Cancelled(e.own[id]))
    && (forall id | id in e.own && !Pending(e.own[id]) :: e.closed || e.faulted || id !in e.table)
  }

  ghost predicate Ids(e: Endpoint) {
    && e.latest >= -1 && e.latest % 2 == (if e.client then 1 else 0)
    && (forall id :: id in e.own <==> OwnId(e.client, id) && id <= e.latest)
    && e.asked.Keys == e.own.Keys
    && (forall id | id in e.table :: id == 0 || id in e.own || id in e.served)
    && (forall id | id in e.served :: OwnId(!e.client, id))
    && (forall x | x in e.answered :: x.0 in e.served)
    && (forall x | x in e.refused :: x.0 in e.served)
  }

  ghost predicate Lifecycle(e: Endpoint) {
    Ids(e) && Streams(e)
  }

  /// What the two ends know of each other

  /** An outcome at the requester was caused by the peer's application, the timer, or the loss of the transport. */
  ghost predicate Explained(e: Endpoint, peer: Endpoint, id: int, event: Event) {
    match event
    case OnResponse(p) => (id, p) in peer.answered
    case OnError(Some(code), p) => (id, code, p) in peer.refused
    case OnError(None, _) => e.closed
    case OnTimeout => true
    case OnCancel => id in peer.served
    case OnTerminate => exists p :: (id, CONNECTION_ERROR, p) in peer.refused
  }

  ghost predicate Backed(e: Endpoint, peer: Endpoint) {
    && (forall id | id in e.served :: id in peer.asked && e.served[id] == peer.asked[id])
    && (forall id | id in e.own && e.own[id].log != [] :: Explained(e, peer, id, e.own[id].log[0]))
  }

  ghost predicate Sendable(sender: Endpoint, receiver: Endpoint, m: Message) {
    match m
    case Setup => sender.client
    case Request(id, p) => id in sender.asked && sender.asked[id] == p && id !in receiver.served
    case Response(id, p) => (id, p) in sender.answered
    case Error(id, code, p) => (id, code, p) in sender.refused
    case Cancel(id) => id in sender.own || id in sender.served
  }

  ghost predicate Channel(sender: Endpoint, receiver: Endpoint, channel: seq<Message>) {
    && (forall i | 0 <= i < |channel| :: Sendable(sender, receiver, channel[i]))
    && (forall i, j | 0 <= i < j < |channel| && channel[i].Request? && channel[j].Request? ::
          channel[i].id != channel[j].id)
  }

  /** SETUP is the first frame the server ever hears; until then nothing has been served. */
  ghost predicate SetupFirst(server: Endpoint, toServer: seq<Message>) {
    && (!server.isSetup ==> toServer != [] && toServer[0] == Setup && server.served == map[])
    && (forall i | 0 <= i < |toServer| && toServer[i] == Setup :: i == 0 && !server.isSetup)
  }

  ghost predicate Inv(s: System) {
    && s.client.client && !s.server.client
    && Lifecycle(s.client) && Lifecycle(s.server)
    && Backed(s.client, s.server) && Backed(s.server, s.client)
    && Channel(s.client, s.server, s.toServer) && Channel(s.server, s.client, s.toClient)
    && SetupFirst(s.server, s.toServer)
  }

  /// Each action, seen from the end `e` where it happens

  /** Everything that relates one end to the other. */
  ghost predicate Joined(e: Endpoint, peer: Endpoint, outgoing: seq<Message>, incoming: seq<Message>) {
    && e.client != peer.client
    && Lifecycle(e) && Lifecycle(peer) && Backed(e, peer) && Backed(peer, e)
    && Channel(e, peer, outgoing) && Channel(peer, e, incoming)
  }

  /** `e` has moved on without hearing a new request: nothing it has asked or answered is forgotten. */
  ghost predicate Grown(e: Endpoint, later: Endpoint) {
    && later.client == e.client && later.served == e.served
    && (forall id | id in e.asked :: id in later.asked && later.asked[id] == e.asked[id])
    && e.own.Keys <= later.own.Keys
    && e.answered <= later.answered && e.refused <= later.refused
    && (e.closed ==> later.closed)
  }

  lemma GrowthKeepsChannels(e: Endpoint, later: Endpoint, peer: Endpoint, outgoing: seq<Message>, incoming: seq<Message>)
    requires Grown(e, later) && Channel(e, peer, outgoing) && Channel(peer, e, incoming)
    ensures Channel(later, peer, outgoing) && Channel(peer, later, incoming)
  {
    forall i | 0 <= i < |outgoing|
      ensures Sendable(later, peer, outgoing[i])
    {
      assert Sendable(e, peer, outgoing[i]);
    }
    forall i | 0 <= i < |incoming|
      ensures Sendable(peer, later, incoming[i])
    {
      assert Sendable(peer, e, incoming[i]);
    }
  }

  lemma GrowthKeepsBacked(e: Endpoint, later: Endpoint, peer: Endpoint)
    requires Grown(e, later) && Backed(peer, e)
    ensures Backed(peer, later)
  {
    forall id | id in peer.own && peer.own[id].log != []
      ensures Explained(peer, later, id, peer.own[id].log[0])
    {
      assert Explained(peer, e, id, peer.own[id].log[0]);
    }
  }

  /** Streams whose first event is unchanged, or absent, stay explained. */
  lemma UnchangedStaysBacked(e: Endpoint, later: Endpoint, peer: Endpoint)
    requires Grown(e, later) && Backed(e, peer) && StillExplained(e, later, peer)
    ensures Backed(later, peer)
  {
    forall id | id in later.own && later.own[id].log != []
      ensures Explained(later, peer, id, later.own[id].log[0])
    {
      if id in e.own && e.own[id].log != [] && later.own[id].log[0] == e.own[id].log[0] {
        assert Explained(e, peer, id, e.own[id].log[0]);
      }
    }
  }

  ghost predicate StillExplained(e: Endpoint, later: Endpoint, peer: Endpoint) {
    forall id | id in later.own && later.own[id].log != [] ::
      (id in e.own && e.own[id].log != [] && later.own[id].log[0] == e.own[id].log[0])
      || Explained(later, peer, id, later.own[id].log[0])
  }

  /** Whatever an end does on its own keeps the two ends joined, as long as its own state makes sense. */
  lemma MoveKeeps(e: Endpoint, later: Endpoint, peer: Endpoint, outgoing: seq<Message>, incoming: seq<Message>)
    requires Joined(e, peer, outgoing, incoming)
    requires Lifecycle(later) && Grown(e, later) && StillExplained(e, later, peer)
    ensures Joined(later, peer, outgoing, incoming)
  {
    GrowthKeepsBacked(e, later, peer);
    UnchangedStaysBacked(e, later, peer);
    GrowthKeepsChannels(e, later, peer, outgoing, incoming);
  }

  lemma OneStreamBacked(e: Endpoint, later: Endpoint, peer: Endpoint, id: int, s: Stream)
    requires Grown(e, later) && Backed(e, peer) && later.own == e.own[id := s]
    requires s.log != [] && Explained(e, peer, id, s.log[0])
    ensures Backed(later, peer)
  {
    assert Explained(later, peer, id, s.log[0]);
    forall x | x in later.own && later.own[x].log != []
      ensures Explained(later, peer, x, later.own[x].log[0])
    {
      if x != id {
        assert Explained(e, peer, x, e.own[x].log[0]);
      }
    }
  }

  lemma SendKeeps(e: Endpoint, peer: Endpoint, channel: seq<Message>, m: Message)
    requires Channel(e, peer, channel) && Sendable(e, peer, m)
    requires m.Request? ==> forall i | 0 <= i < |channel| && channel[i].Request? :: channel[i].id != m.id
    ensures Channel(e, peer, channel + [m])
  {}

  lemma AskLifecycle(e: Endpoint, p: Payload)
    requires Lifecycle(e)
    ensures Lifecycle(Ask(e, p).endpoint) && Grown(e, Ask(e, p).endpoint)
  {
    NextId(e);
  }

  lemma NextId(e: Endpoint)
    requires Lifecycle(e)
    ensures var id := e.latest + 2;
            && OwnId(e.client, id) && id !in e.own && id !in e.asked && id !in e.served
            && forall x :: (x in e.own || x == id) <==> OwnId(e.client, x) && x <= id
  {
    var id := e.latest + 2;
    forall x
      ensures (x in e.own || x == id) <==> OwnId(e.client, x) && x <= id
    {
      assert x in e.own <==> OwnId(e.client, x) && x <= e.latest;
    }
  }

  lemma NotUnderWay(e: Endpoint, peer: Endpoint, channel: seq<Message>, id: int)
    requires Channel(e, peer, channel) && id !in e.asked
    ensures forall i | 0 <= i < |channel| && channel[i].Request? :: channel[i].id != id
  {
    forall i | 0 <= i < |channel| && channel[i].Request?
      ensures channel[i].id != id
    {
      assert Sendable(e, peer, channel[i]);
    }
  }

  lemma AskKeeps(e: Endpoint, peer: Endpoint, outgoing: seq<Message>, incoming: seq<Message>, p: Payload)
    requires Joined(e, peer, outgoing, incoming)
    ensures var t := Ask(e, p);
            Joined(t.endpoint, peer, Outgoing(e, outgoing, t.sent), incoming)
  {
    var later := Ask(e, p).endpoint;
    var id := e.latest + 2;
    NextId(e);
    AskLifecycle(e, p);
    NotUnderWay(e, peer, outgoing, id);
    MoveKeeps(e, later, peer, outgoing, incoming);
    SendKeeps(later, peer, outgoing, Request(id, p));
  }

  /** A timer that fires ends a pending request, and ends a cancelled one again. */
  lemma ExpireEnds(s: Stream)
    requires s.armed && (Pending(s) || Over(s) || Cancelled(s))
    ensures Over(Expire(s)) || Cancelled(Expire(s))
    ensures s.log != [] ==> Expire(s).log[0] == s.log[0]
    ensures Expire(s).log[0] == OnTimeout || s.log != []
  {
    assert Pending(s) || Cancelled(s);
    if Pending(s) {
      assert Expire(s).log == [OnTimeout, OnTerminate];
    } else {
      assert Expire(s).log == [OnCancel, OnTerminate] + [OnTimeout, OnTerminate];
    }
  }

  lemma TimeOutStreams(e: Endpoint, id: int)
    requires Streams(e) && id in e.own
    requires Over(Expire(e.own[id])) || Cancelled(Expire(e.own[id]))
    ensures Streams(TimeOut(e, id).endpoint)
  {
    var later := TimeOut(e, id).endpoint;
    forall x | x in later.own
      ensures (Pending(later.own[x]) && x in later.table) || Over(later.own[x]) || Cancelled(later.own[x])
      ensures !Pending(later.own[x]) ==> later.closed || later.faulted || x !in later.table
    {
      if x != id {
        assert later.own[x] == e.own[x];
      }
    }
  }

  lemma TimeOutLifecycle(e: Endpoint, id: int)
    requires Lifecycle(e) && id in e.own
    requires Over(Expire(e.own[id])) || Cancelled(Expire(e.own[id]))
    ensures Lifecycle(TimeOut(e, id).endpoint) && Grown(e, TimeOut(e, id).endpoint)
  {
    TimeOutStreams(e, id);
    assert TimeOut(e, id).endpoint.own.Keys == e.own.Keys;
    assert Ids(TimeOut(e, id).endpoint);
  }

  lemma TimeOutExplained(e: Endpoint, peer: Endpoint, id: int)
    requires id in e.own && Expire(e.own[id]).log != []
    requires e.own[id].log != [] ==> Expire(e.own[id]).log[0] == e.own[id].log[0]
    requires e.own[id].log == [] ==> Expire(e.own[id]).log[0] == OnTimeout
    ensures StillExplained(e, TimeOut(e, id).endpoint, peer)
  {
    var later := TimeOut(e, id).endpoint;
    forall x | x in later.own && later.own[x].log != []
      ensures (x in e.own && e.own[x].log != [] && later.own[x].log[0] == e.own[x].log[0])
           || Explained(later, peer, x, later.own[x].log[0])
    {
      assert x != id ==> later.own[x] == e.own[x];
    }
  }

  lemma TimeOutKeeps(e: Endpoint, peer: Endpoint, outgoing: seq<Message>, incoming: seq<Message>, id: int)
    requires Joined(e, peer, outgoing, incoming) && id in e.own && e.own[id].armed
    ensures var t := TimeOut(e, id);
            Joined(t.endpoint, peer, Outgoing(e, outgoing, t.sent), incoming)
  {
    var later := TimeOut(e, id).endpoint;
    ExpireEnds(e.own[id]);
    TimeOutLifecycle(e, id);
    TimeOutExplained(e, peer, id);
    MoveKeeps(e, later, peer, outgoing, incoming);
    SendKeeps(later, peer, outgoing, Cancel(id));
  }

  lemma AbandonKeeps(e: Endpoint, peer: Endpoint, outgoing: seq<Message>, incoming: seq<Message>, id: int)
    requires Joined(e, peer, outgoing, incoming) && id in e.own
    ensures Joined(e, peer, Outgoing(e, outgoing, [Cancel(id)]), incoming)
  {
    SendKeeps(e, peer, outgoing, Cancel(id));
  }

  lemma CancelPeerKeeps(e: Endpoint, peer: Endpoint, outgoing: seq<Message>, incoming: seq<Message>, id: int)
    requires Joined(e, peer, outgoing, incoming) && id in e.served
    ensures Joined(e, peer, Outgoing(e, outgoing, [Cancel(id)]), incoming)
  {
    SendKeeps(e, peer, outgoing, Cancel(id));
  }

  lemma AnswerLifecycle(e: Endpoint, id: int, p: Payload)
    requires Lifecycle(e) && id in e.served
    ensures Lifecycle(Answer(e, id, p).endpoint) && Grown(e, Answer(e, id, p).endpoint)
  {
    assert OwnId(!e.client, id) && id !in e.own;
  }

  lemma AnswerKeeps(e: Endpoint, peer: Endpoint, outgoing: seq<Message>, incoming: seq<Message>, id: int, p: Payload)
    requires Joined(e, peer, outgoing, incoming) && id in e.served
    ensures var t := Answer(e, id, p);
            Joined(t.endpoint, peer, Outgoing(e, outgoing, t.sent), incoming)
  {
    var later := Answer(e, id, p).endpoint;
    AnswerLifecycle(e, id, p);
    MoveKeeps(e, later, peer, outgoing, incoming);
    SendKeeps(later, peer, outgoing, Response(id, p));
  }

  lemma RefuseKeeps(e: Endpoint, peer: Endpoint, outgoing: seq<Message>, incoming: seq<Message>,
                    id: int, code: nat, p: Payload)
    requires Joined(e, peer, outgoing, incoming) && id in e.served
    ensures var t := Refuse(e, id, code, p);
            Joined(t.endpoint, peer, Outgoing(e, outgoing, t.sent), incoming)
  {
    var later := Refuse(e, id, code, p).endpoint;
    assert Lifecycle(later);
    MoveKeeps(e, later, peer, outgoing, incoming);
    SendKeeps(later, peer, outgoing, Error(id, code, p));
  }

  /// Hearing a frame

  lemma RestKeeps(sender: Endpoint, receiver: Endpoint, channel: seq<Message>)
    requires Channel(sender, receiver, channel) && channel != []
    ensures Channel(sender, receiver, channel[1..])
  {
    forall i | 0 <= i < |channel[1..]|
      ensures Sendable(sender, receiver, channel[1..][i])
    {
      assert Sendable(sender, receiver, channel[i + 1]);
    }
  }

  /** A resolving frame ends a request that was waiting for it, and nothing else. */
  lemma ResolveLifecycle(e: Endpoint, id: int, s: Stream)
    requires Lifecycle(e) && id != 0
    requires Listens(e, id) ==> Over(s) || Cancelled(s)
    ensures Lifecycle(Resolve(e, id, s)) && Grown(e, Resolve(e, id, s))
  {}

  lemma ResolveKeeps(e: Endpoint, peer: Endpoint, outgoing: seq<Message>, incoming: seq<Message>, id: int, s: Stream)
    requires Joined(e, peer, outgoing, incoming) && id != 0
    requires Listens(e, id) ==> (Over(s) || Cancelled(s)) && s.log != [] && Explained(e, peer, id, s.log[0])
    ensures Joined(Resolve(e, id, s), peer, outgoing, incoming)
  {
    var later := Resolve(e, id, s);
    ResolveLifecycle(e, id, s);
    GrowthKeepsBacked(e, later, peer);
    GrowthKeepsChannels(e, later, peer, outgoing, incoming);
    if Listens(e, id) {
      OneStreamBacked(e, later, peer, id, s);
    } else {
      UnchangedStaysBacked(e, later, peer);
    }
  }

  lemma HearResponseKeeps(e: Endpoint, peer: Endpoint, outgoing: seq<Message>, incoming: seq<Message>,
                          id: int, p: Payload)
    requires Joined(e, peer, outgoing, incoming) && !e.closed && !e.faulted
    requires Sendable(peer, e, Response(id, p))
    ensures Joined(Receive(e, Response(id, p), false), peer, outgoing, incoming)
  {
    assert (id, p) in peer.answered;
    assert id in peer.served && id in e.asked && id in e.own;
    var s := SetResponse(e.own[id], p);
    if Listens(e, id) {
      assert Pending(e.own[id]);
      assert [] + p.data == p.data && [] + p.metadata == p.metadata;
      assert s.log == [OnResponse(p), OnTerminate];
    }
    ResolveKeeps(e, peer, outgoing, incoming, id, s);
  }

  lemma ReceiveErrorLifecycle(e: Endpoint, id: int, code: nat, p: Payload, watched: bool)
    requires Lifecycle(e) && id in e.own
    requires Listens(e, id) ==> Over(SetError(e.own[id], Some(code), p))
    ensures Lifecycle(ReceiveError(e, id, code, p, watched)) && Grown(e, ReceiveError(e, id, code, p, watched))
  {}

  lemma ReceiveErrorKeeps(e: Endpoint, peer: Endpoint, outgoing: seq<Message>, incoming: seq<Message>,
                          id: int, code: nat, p: Payload, watched: bool)
    requires Joined(e, peer, outgoing, incoming) && id in e.own
    requires var s := SetError(e.own[id], Some(code), p);
             Listens(e, id) ==> Over(s) && s.log != [] && Explained(e, peer, id, s.log[0])
    ensures Joined(ReceiveError(e, id, code, p, watched), peer, outgoing, incoming)
  {
    var later := ReceiveError(e, id, code, p, watched);
    ReceiveErrorLifecycle(e, id, code, p, watched);
    GrowthKeepsBacked(e, later, peer);
    GrowthKeepsChannels(e, later, peer, outgoing, incoming);
    if Listens(e, id) {
      OneStreamBacked(e, later, peer, id, SetError(e.own[id], Some(code), p));
    } else {
      UnchangedStaysBacked(e, later, peer);
    }
  }

  lemma ErrorEnds(s: Stream, code: nat, p: Payload)
    requires Pending(s)
    ensures var t := SetError(s, Some(code), p);
            Over(t) && t.log != []
            && t.log[0] == if code == CONNECTION_ERROR then OnTerminate else OnError(Some(code), p)
  {
    assert SetError(s, Some(code), p).log == ErrorEvents(Some(code), p) + [OnTerminate];
  }

  lemma HearErrorKeeps(e: Endpoint, peer: Endpoint, outgoing: seq<Message>, incoming: seq<Message>,
                       id: int, code: nat, p: Payload, watched: bool)
    requires Joined(e, peer, outgoing, incoming) && !e.closed && !e.faulted
    requires Sendable(peer, e, Error(id, code, p))
    ensures Joined(ReceiveError(e, id, code, p, watched), peer, outgoing, incoming)
  {
    assert (id, code, p) in peer.refused;
    assert id in peer.served && id in e.asked && id in e.own;
    if Listens(e, id) {
      ErrorEnds(e.own[id], code, p);
    }
    ReceiveErrorKeeps(e, peer, outgoing, incoming, id, code, p, watched);
  }

  /** A cancel comes from either side of the request: the requester gives up, or the responder does. */
  lemma HearCancelKeeps(e: Endpoint, peer: Endpoint, outgoing: seq<Message>, incoming: seq<Message>, id: int)
    requires Joined(e, peer, outgoing, incoming) && !e.closed && !e.faulted
    requires Sendable(peer, e, Cancel(id))
    ensures Joined(Receive(e, Cancel(id), false), peer, outgoing, incoming)
  {
    assert OwnId(e.client, id) || OwnId(peer.client, id);
    if id in e.own {
      var s := SetCancel(e.own[id]);
      if Listens(e, id) {
        assert Pending(e.own[id]);
        assert s.log == [OnCancel, OnTerminate];
      }
      ResolveKeeps(e, peer, outgoing, incoming, id, s);
    } else {
      ResolveKeeps(e, peer, outgoing, incoming, id, STARTED);
    }
  }

  lemma HearSetupKeeps(e: Endpoint, peer: Endpoint, outgoing: seq<Message>, incoming: seq<Message>, watched: bool)
    requires Joined(e, peer, outgoing, incoming)
    ensures Joined(ReceiveSetup(e, watched), peer, outgoing, incoming)
  {
    var later := ReceiveSetup(e, watched);
    assert 0 !in e.own by { assert !OwnId(e.client, 0); }
    assert Lifecycle(later);
    MoveKeeps(e, later, peer, outgoing, incoming);
  }

  /** A request is handed to the application once: the frames still under way carry other ids. */
  lemma HearRequestLifecycle(e: Endpoint, id: int, p: Payload)
    requires Lifecycle(e) && OwnId(!e.client, id)
    ensures Lifecycle(Receive(e, Request(id, p), false))
  {
    assert id !in e.own;
  }

  /** What the application has been handed only ever justifies more. */
  lemma HearRequestBacked(e: Endpoint, later: Endpoint, peer: Endpoint, id: int, p: Payload)
    requires Backed(e, peer) && Backed(peer, e)
    requires later == e.(table := later.table, served := e.served[id := p])
    requires id in peer.asked && peer.asked[id] == p
    ensures Backed(later, peer) && Backed(peer, later)
  {
    forall x | x in later.own && later.own[x].log != []
      ensures Explained(later, peer, x, later.own[x].log[0])
    {
      assert Explained(e, peer, x, e.own[x].log[0]);
    }
    forall x | x in peer.own && peer.own[x].log != []
      ensures Explained(peer, later, x, peer.own[x].log[0])
    {
      assert Explained(peer, e, x, peer.own[x].log[0]);
    }
  }

  lemma HearRequestChannels(e: Endpoint, later: Endpoint, peer: Endpoint, outgoing: seq<Message>, incoming: seq<Message>,
                            id: int, p: Payload)
    requires Channel(e, peer, outgoing) && Channel(peer, e, incoming)
    requires later == e.(table := later.table, served := e.served[id := p])
    requires forall i | 0 <= i < |incoming| && incoming[i].Request? :: incoming[i].id != id
    ensures Channel(later, peer, outgoing) && Channel(peer, later, incoming)
  {
    forall i | 0 <= i < |outgoing|
      ensures Sendable(later, peer, outgoing[i])
    {
      assert Sendable(e, peer, outgoing[i]);
    }
    forall i | 0 <= i < |incoming|
      ensures Sendable(peer, later, incoming[i])
    {
      assert Sendable(peer, e, incoming[i]);
    }
  }

  lemma HearRequestKeeps(e: Endpoint, peer: Endpoint, outgoing: seq<Message>, incoming: seq<Message>, id: int, p: Payload)
    requires Joined(e, peer, outgoing, incoming)
    requires Sendable(peer, e, Request(id, p))
    requires forall i | 0 <= i < |incoming| && incoming[i].Request? :: incoming[i].id != id
    ensures Joined(Receive(e, Request(id, p), false), peer, outgoing, incoming)
  {
    if e.isSetup || e.client {
      var later := Receive(e, Request(id, p), false);
      assert id in peer.own && OwnId(peer.client, id);
      HearRequestLifecycle(e, id, p);
      HearRequestBacked(e, later, peer, id, p);
      HearRequestChannels(e, later, peer, outgoing, incoming, id, p);
    }
  }

  lemma HearKeeps(e: Endpoint, peer: Endpoint, outgoing: seq<Message>, incoming: seq<Message>, watched: bool)
    requires Joined(e, peer, outgoing, incoming) && !e.closed && !e.faulted && incoming != []
    ensures Joined(Receive(e, incoming[0], watched), peer, outgoing, incoming[1..])
  {
    var m, rest := incoming[0], incoming[1..];
    assert Sendable(peer, e, m);
    RestKeeps(peer, e, incoming);
    match m {
      case Setup => HearSetupKeeps(e, peer, outgoing, rest, watched);
      case Request(id, p) =>
        forall i | 0 <= i < |rest| && rest[i].Request?
          ensures rest[i].id != id
        {
          assert rest[i] == incoming[i + 1];
        }
        HearRequestKeeps(e, peer, outgoing, rest, id, p);
      case Response(id, p) => HearResponseKeeps(e, peer, outgoing, rest, id, p);
      case Error(id, code, p) => HearErrorKeeps(e, peer, outgoing, rest, id, code, p, watched);
      case Cancel(id) => HearCancelKeeps(e, peer, outgoing, rest, id);
    }
  }

  /// Losing the transport

  lemma LoseLifecycle(e: Endpoint)
    requires Lifecycle(e) && !e.closed && !e.faulted
    ensures Lifecycle(CloseTransport(e)) && Grown(e, CloseTransport(e))
    ensures forall id | id in e.own ::
      var s := CloseTransport(e).own[id];
      s == e.own[id] || s.log == [OnError(None, NOTHING), OnTerminate]
  {
    forall id | id in e.own
      ensures id in e.table ==> Over(SetError(e.own[id], None, NOTHING))
    {
      if id in e.table {
        assert Pending(e.own[id]);
        assert SetError(e.own[id], None, NOTHING).log == [OnError(None, NOTHING), OnTerminate];
      }
    }
  }

  lemma LoseKeeps(e: Endpoint, peer: Endpoint, outgoing: seq<Message>, incoming: seq<Message>)
    requires Joined(e, peer, outgoing, incoming) && !e.closed && !e.faulted
    ensures Joined(CloseTransport(e), peer, outgoing, incoming)
  {
    var later := CloseTransport(e);
    LoseLifecycle(e);
    MoveKeeps(e, later, peer, outgoing, incoming);
  }

  /// Steps and runs

  lemma ActKeeps(e: Endpoint, peer: Endpoint, outgoing: seq<Message>, incoming: seq<Message>, a: Action)
    requires Joined(e, peer, outgoing, incoming) && Enabled(e, incoming, a)
    ensures var t := Act(e, incoming, a);
            Joined(t.endpoint, peer, Outgoing(e, outgoing, t.sent), Incoming(incoming, a))
  {
    match a {
      case Asks(p) => AskKeeps(e, peer, outgoing, incoming, p);
      case TimesOut(id) => TimeOutKeeps(e, peer, outgoing, incoming, id);
      case Abandons(id) => AbandonKeeps(e, peer, outgoing, incoming, id);
      case Answers(id, p) => AnswerKeeps(e, peer, outgoing, incoming, id, p);
      case Refuses(id, code, p) => RefuseKeeps(e, peer, outgoing, incoming, id, code, p);
      case CancelsPeer(id) => CancelPeerKeeps(e, peer, outgoing, incoming, id);
      case Hears(watched) =>
        HearKeeps(e, peer, outgoing, incoming, watched);
        assert Outgoing(e, outgoing, []) == outgoing;
      case Loses =>
        LoseKeeps(e, peer, outgoing, incoming);
        assert Outgoing(e, outgoing, []) == outgoing;
    }
  }

  lemma StepKeepsInv(s: System, step: Step)
    requires Inv(s) && CanStep(s, step)
    ensures Inv(Next(s, step))
  {
    if step.atClient {
      ActKeeps(s.client, s.server, s.toServer, s.toClient, step.action);
      ClientKeepsSetupFirst(s, step.action);
    } else {
      ActKeeps(s.server, s.client, s.toClient, s.toServer, step.action);
      ServerKeepsSetupFirst(s, step.action);
    }
  }

  lemma ClientKeepsSetupFirst(s: System, a: Action)
    requires Inv(s) && Enabled(s.client, s.toClient, a)
    ensures SetupFirst(s.server, Next(s, Step(true, a)).toServer)
    ensures Next(s, Step(true, a)).client.client
  {
    SentIsNotSetup(s.client, s.toClient, a);
    MoreAfterSetup(s.server, s.toServer, Act(s.client, s.toClient, a).sent);
  }

  lemma SentIsNotSetup(e: Endpoint, incoming: seq<Message>, a: Action)
    requires Enabled(e, incoming, a)
    ensures var t := Act(e, incoming, a);
            t.endpoint.client == e.client && |t.sent| <= 1 && forall m <- t.sent :: m != Setup
  {
    match a {
      case Hears(watched) => ReceiveKeepsClient(e, incoming[0], watched);
      case _ =>
    }
  }

  lemma ReceiveKeepsClient(e: Endpoint, m: Message, watched: bool)
    ensures Receive(e, m, watched).client == e.client
    ensures e.isSetup ==> Receive(e, m, watched).isSetup
  {}

  lemma MoreAfterSetup(server: Endpoint, channel: seq<Message>, sent: seq<Message>)
    requires SetupFirst(server, channel) && forall m <- sent :: m != Setup
    ensures SetupFirst(server, channel + sent)
  {
    var longer := channel + sent;
    assert forall i | 0 <= i < |channel| :: longer[i] == channel[i];
    assert forall i | |channel| <= i < |longer| :: longer[i] == sent[i - |channel|] && longer[i] in sent;
  }

  lemma ServerKeepsSetupFirst(s: System, a: Action)
    requires Inv(s) && Enabled(s.server, s.toServer, a)
    ensures var s' := Next(s, Step(false, a));
            SetupFirst(s'.server, s'.toServer) && !s'.server.client
  {
    match a {
      case Hears(watched) => HearingKeepsSetupFirst(s.server, s.toServer, watched);
      case _ => QuietKeepsSetup(s.server, s.toServer, a);
    }
  }

  lemma QuietKeepsSetup(e: Endpoint, incoming: seq<Message>, a: Action)
    requires Enabled(e, incoming, a) && !a.Hears?
    ensures var later := Act(e, incoming, a).endpoint;
            later.client == e.client && later.isSetup == e.isSetup && later.served == e.served
  {}

  lemma HearingKeepsSetupFirst(server: Endpoint, channel: seq<Message>, watched: bool)
    requires SetupFirst(server, channel) && channel != [] && !server.client
    ensures var later := Receive(server, channel[0], watched);
            SetupFirst(later, channel[1..]) && !later.client
  {
    var m, rest := channel[0], channel[1..];
    assert forall i | 0 <= i < |rest| :: rest[i] == channel[i + 1];
    ReceiveKeepsClient(server, m, watched);
    if m != Setup {
      assert server.isSetup;
    }
  }

  lemma InitialInv()
    ensures Inv(INITIAL)
  {
    assert forall id :: OwnId(true, id) ==> id > -1;
    assert forall id :: OwnId(false, id) ==> id > 0;
  }

  /** Every state of every run. */
  lemma {:induction false} RunKeepsInv(steps: seq<Step>)
    requires After(steps).Some?
    ensures Inv(After(steps).value)
  {
    if steps == [] {
      InitialInv();
    } else {
      var before := steps[..|steps| - 1];
      RunKeepsInv(before);
      StepKeepsInv(After(before).value, steps[|steps| - 1]);
    }
  }

  function Local(s: System, atClient: bool): Endpoint {
    if atClient then s.client else s.server
  }

  /** One end of a reachable state, and what it is joined to. */
  lemma EndOf(steps: seq<Step>, atClient: bool) returns (outgoing: seq<Message>, incoming: seq<Message>)
    requires After(steps).Some?
    ensures var s := After(steps).value;
            && Joined(Local(s, atClient), Local(s, !atClient), outgoing, incoming)
            && Local(s, atClient).client == atClient
            && incoming == if atClient then s.toClient else s.toServer
  {
    RunKeepsInv(steps);
    var s := After(steps).value;
    outgoing, incoming := if atClient then s.toServer else s.toClient, if atClient then s.toClient else s.toServer;
  }

  /// The theorems, first for one state

  lemma GenuineHere(e: Endpoint, peer: Endpoint, id: int, i: nat, p: Payload)
    requires Lifecycle(e) && Lifecycle(peer) && Backed(e, peer) && Backed(peer, e)
    requires id in e.own && i < |e.own[id].log| && e.own[id].log[i] == OnResponse(p)
    ensures (id, p) in peer.answered && id in peer.served && id in e.asked && peer.served[id] == e.asked[id]
  {
    assert Over(e.own[id]);
    assert Explained(e, peer, id, e.own[id].log[0]);
  }

  /** Response integrity: on every run, a response event carries a payload the peer's application gave for that very
      request, and the request the peer was handed is the one that was made. */
  lemma ResponsesAreGenuine(steps: seq<Step>, atClient: bool, id: int, i: nat, p: Payload)
    requires After(steps).Some?
    requires var e := Local(After(steps).value, atClient);
             id in e.own && i < |e.own[id].log| && e.own[id].log[i] == OnResponse(p)
    ensures var (e, peer) := (Local(After(steps).value, atClient), Local(After(steps).value, !atClient));
            && (id, p) in peer.answered
            && id in peer.served && id in e.asked && peer.served[id] == e.asked[id]
  {
    var outgoing, incoming := EndOf(steps, atClient);
    GenuineHere(Local(After(steps).value, atClient), Local(After(steps).value, !atClient), id, i, p);
  }

  function Terminates(log: seq<Event>): nat {
    if log == [] then 0 else (if log[0] == OnTerminate then 1 else 0) + Terminates(log[1..])
  }

  function Outcomes(log: seq<Event>): nat {
    if log == [] then 0 else (if Outcome(log[0]) then 1 else 0) + Outcomes(log[1..])
  }

  lemma LogOfTheFinished(s: Stream)
    requires Over(s)
    ensures Terminates(s.log) == 1 && Outcomes(s.log) == if s.log == [OnTerminate] then 0 else 1
    ensures s.log[|s.log| - 1] == OnTerminate && OnCancel !in s.log
  {
    if s.log == [OnTerminate] {
      assert s.log[1..] == [];
    } else {
      var tail := s.log[1..];
      assert tail == [OnTerminate] && tail[1..] == [];
      assert Terminates(tail) == 1 && Outcomes(tail) == 0;
    }
  }

  lemma LogOfTheCancelled(s: Stream)
    requires Cancelled(s)
    ensures Terminates(s.log) == if s.expired then 2 else 1
    ensures Outcomes(s.log) == if s.expired then 1 else 0
    ensures s.log[|s.log| - 1] == OnTerminate && OnCancel in s.log
  {
    assert s.log[0] == OnCancel;
    assert s.log[1..][0] == OnTerminate;
    if s.expired {
      var tail := s.log[1..][1..];
      assert tail == [OnTimeout, OnTerminate] && tail[1..] == [OnTerminate] && tail[1..][1..] == [];
      assert Terminates(tail[1..]) == 1 && Outcomes(tail[1..]) == 0;
      assert Terminates(tail) == 1 && Outcomes(tail) == 1;
      assert Terminates(s.log[1..]) == 2 && Outcomes(s.log[1..]) == 1;
    } else {
      assert s.log[1..][1..] == [];
      assert Terminates(s.log[1..]) == 1 && Outcomes(s.log[1..]) == 0;
    }
  }

  /** The life of one request, as far as it has come: nothing has happened yet, or it has terminated. */
  ghost predicate Alive(e: Endpoint, s: Stream, id: int) {
    s.log == [] && s.armed && !s.expired && id in e.table
  }

  ghost predicate Ended(e: Endpoint, s: Stream, id: int) {
    && s.log != [] && s.log[|s.log| - 1] == OnTerminate
    && Terminates(s.log) == (if s.expired && OnCancel in s.log then 2 else 1)
    && Outcomes(s.log) == (if s.log == [OnTerminate] || (OnCancel in s.log && !s.expired) then 0 else 1)
    && (s.armed <==> OnCancel in s.log && !s.expired)
    && (e.closed || e.faulted || id !in e.table)
  }

  lemma LifetimeHere(e: Endpoint, id: int)
    requires Lifecycle(e) && id in e.own
    ensures if e.own[id].log == [] then Alive(e, e.own[id], id) else Ended(e, e.own[id], id)
  {
    if Over(e.own[id]) {
      LogOfTheFinished(e.own[id]);
    } else if Cancelled(e.own[id]) {
      LogOfTheCancelled(e.own[id]);
    }
  }

  /** Request lifetime: on every run each request is either untouched, with its timer armed and its stream in the table,
      or has ended: no timer is left, its stream has left the table, and terminate is the last event. It has terminated
      twice if and only if the peer cancelled it and its timer fired afterwards, and once otherwise. */
  lemma RequestLifetime(steps: seq<Step>, atClient: bool, id: int)
    requires After(steps).Some?
    requires id in Local(After(steps).value, atClient).own
    ensures var e := Local(After(steps).value, atClient);
            if e.own[id].log == [] then Alive(e, e.own[id], id) else Ended(e, e.own[id], id)
  {
    var outgoing, incoming := EndOf(steps, atClient);
    LifetimeHere(Local(After(steps).value, atClient), id);
  }

  /** The frames that end a request without an outcome. */
  predicate Silences(m: Message, id: int) {
    match m
    case Cancel(x) => x == id
    case Error(x, code, _) => x == id && code == CONNECTION_ERROR
    case _ => false
  }

  function Inbound(s: System, atClient: bool): seq<Message> {
    if atClient then s.toClient else s.toServer
  }

  lemma TableHere(e: Endpoint, id: int)
    requires Lifecycle(e) && !e.closed && !e.faulted && OwnId(e.client, id)
    ensures id in e.table <==> id in e.own && e.own[id].log == []
  {
    if id in e.table {
      assert id !in e.served;
      assert id in e.own;
    }
  }

  /** Until its transport closes, a working end's table holds, among its own ids, exactly the unresolved requests. */
  lemma TableIsPending(steps: seq<Step>, atClient: bool, id: int)
    requires After(steps).Some? && OwnId(atClient, id)
    requires !Local(After(steps).value, atClient).closed && !Local(After(steps).value, atClient).faulted
    ensures var e := Local(After(steps).value, atClient);
            id in e.table <==> id in e.own && e.own[id].log == []
  {
    var outgoing, incoming := EndOf(steps, atClient);
    TableHere(Local(After(steps).value, atClient), id);
  }

  lemma FreshHere(e: Endpoint, peer: Endpoint)
    requires e.client != peer.client && Lifecycle(e) && Lifecycle(peer) && Backed(peer, e)
    ensures var id := e.latest + 2;
            id !in e.own && id !in e.table && id !in peer.own && id !in peer.table && id !in peer.served
    ensures e.own.Keys !! peer.own.Keys
  {
    NextId(e);
    var id := e.latest + 2;
    assert !OwnId(peer.client, id) && id > 0;
    assert id !in peer.own && id !in peer.served;
    forall x | x in e.own
      ensures x !in peer.own
    {
      assert OwnId(e.client, x);
    }
  }

  /** A new request gets an id that neither end has ever used or holds in its table, and the two ends never use
      the same id. */
  lemma IdsAreFresh(steps: seq<Step>, atClient: bool)
    requires After(steps).Some?
    ensures var (e, peer) := (Local(After(steps).value, atClient), Local(After(steps).value, !atClient));
            var id := e.latest + 2;
            && id !in e.own && id !in e.table && id !in peer.own && id !in peer.table && id !in peer.served
            && e.own.Keys !! peer.own.Keys
  {
    var outgoing, incoming := EndOf(steps, atClient);
    FreshHere(Local(After(steps).value, atClient), Local(After(steps).value, !atClient));
  }

  /** No request of the client reaches the server before SETUP, so none is dropped for that reason; and each is handed
      to the application at most once, as it was made. */
  lemma RequestsAreServed(steps: seq<Step>, id: int, p: Payload)
    requires After(steps).Some?
    requires var s := After(steps).value; s.toServer != [] && s.toServer[0] == Request(id, p)
    ensures var server := After(steps).value.server;
            && server.isSetup && id !in server.served
            && id in After(steps).value.client.asked && After(steps).value.client.asked[id] == p
            && var later := Receive(server, Request(id, p), false);
               id in later.table && id in later.served && later.served[id] == p
  {
    RunKeepsInv(steps);
    var s := After(steps).value;
    assert Sendable(s.client, s.server, s.toServer[0]);
  }

  /// What happens to a request, step by step

  /** What a frame makes of a request stream that waits for one. */
  function Told(s: Stream, m: Message, id: int): Stream {
    match m
    case Response(x, p) => if x == id then SetResponse(s, p) else s
    case Error(x, code, p) => if x == id then SetError(s, Some(code), p) else s
    case Cancel(x) => if x == id then SetCancel(s) else s
    case _ => s
  }

  lemma ResolvedBy(e: Endpoint, x: int, s: Stream, id: int)
    requires id in e.own
    ensures var own := Resolve(e, x, s).own;
            id in own && own[id] == if id in e.table && x == id then s else e.own[id]
  {}

  lemma ErrorReceivedBy(e: Endpoint, x: int, code: nat, p: Payload, watched: bool, id: int)
    requires id in e.own
    ensures var own := ReceiveError(e, x, code, p, watched).own;
            id in own && own[id] == if id in e.table && x == id then SetError(e.own[id], Some(code), p) else e.own[id]
  {}

  lemma ReceivedBy(e: Endpoint, m: Message, watched: bool, id: int)
    requires id in e.own
    ensures id in Receive(e, m, watched).own
    ensures Receive(e, m, watched).own[id] == if id in e.table then Told(e.own[id], m, id) else e.own[id]
  {
    match m {
      case Error(x, code, p) => ErrorReceivedBy(e, x, code, p, watched, id);
      case Response(x, p) => ResolvedBy(e, x, if x in e.own then SetResponse(e.own[x], p) else STARTED, id);
      case Cancel(x) => ResolvedBy(e, x, if x in e.own then SetCancel(e.own[x]) else STARTED, id);
      case _ =>
    }
  }

  function Acted(e: Endpoint, incoming: seq<Message>, a: Action, id: int): Stream
    requires Enabled(e, incoming, a) && id in e.own
  {
    var s := e.own[id];
    match a
    case TimesOut(x) => if x == id then Expire(s) else s
    case Hears(_) => if id in e.table then Told(s, incoming[0], id) else s
    case Loses => if id in e.table then SetError(s, None, NOTHING) else s
    case _ => s
  }

  lemma ActedOn(e: Endpoint, incoming: seq<Message>, a: Action, id: int)
    requires Lifecycle(e) && Enabled(e, incoming, a) && id in e.own
    ensures id in Act(e, incoming, a).endpoint.own
    ensures Act(e, incoming, a).endpoint.own[id] == Acted(e, incoming, a, id)
  {
    assert OwnId(e.client, id) && id <= e.latest;
    match a {
      case Hears(watched) => ReceivedBy(e, incoming[0], watched, id);
      case _ =>
    }
  }

  lemma SilentHere(e: Endpoint, incoming: seq<Message>, a: Action, id: int)
    requires Lifecycle(e) && Enabled(e, incoming, a) && id in e.own && e.own[id].log == []
    ensures var log := Acted(e, incoming, a, id).log;
            log != [] ==> (Outcomes(log) == 0 <==> a.Hears? && Silences(incoming[0], id))
  {
    assert Pending(e.own[id]);
    var log := Acted(e, incoming, a, id).log;
    if log != [] {
      assert |log| <= 2;
      OutcomesOfShort(log);
    }
  }

  lemma OutcomesOfShort(log: seq<Event>)
    requires 1 <= |log| <= 2
    ensures Outcomes(log) == 0 <==> forall i | 0 <= i < |log| :: !Outcome(log[i])
  {
    if |log| == 1 {
      assert log[1..] == [];
    } else {
      assert log[1..][1..] == [] && log[1..][0] == log[1];
    }
  }

  /** A request that ends without an outcome, exactly: its end was a CONNECTION_ERROR, or a cancel, of the peer. */
  lemma EndsSilently(steps: seq<Step>, step: Step, atClient: bool, id: int)
    requires After(steps).Some? && CanStep(After(steps).value, step)
    requires var e := Local(After(steps).value, atClient); id in e.own && e.own[id].log == []
    ensures id in Local(Next(After(steps).value, step), atClient).own
    ensures var s := After(steps).value;
            var log := Local(Next(s, step), atClient).own[id].log;
            log != [] ==>
              (Outcomes(log) == 0
               <==> step.atClient == atClient && step.action.Hears? && Silences(Inbound(s, atClient)[0], id))
  {
    var outgoing, incoming := EndOf(steps, atClient);
    if step.atClient == atClient {
      var e := Local(After(steps).value, atClient);
      ActedOn(e, incoming, step.action, id);
      SilentHere(e, incoming, step.action, id);
    }
  }

  lemma FinishedHere(e: Endpoint, incoming: seq<Message>, a: Action, id: int)
    requires Lifecycle(e) && Enabled(e, incoming, a) && id in e.own && e.own[id].log != []
    ensures Acted(e, incoming, a, id).log
         == if a == TimesOut(id) then e.own[id].log + [OnTimeout, OnTerminate] else e.own[id].log
  {
    assert e.closed || id !in e.table;
  }

  /** Once a request has ended nothing more happens to it, but for the timer of one that was cancelled. */
  lemma EndedForGood(steps: seq<Step>, step: Step, atClient: bool, id: int)
    requires After(steps).Some? && CanStep(After(steps).value, step)
    requires var e := Local(After(steps).value, atClient); id in e.own && e.own[id].log != []
    ensures var e := Local(After(steps).value, atClient);
            var later := Local(Next(After(steps).value, step), atClient);
            && id in later.own
            && later.own[id].log == e.own[id].log
                                    + if step == Step(atClient, TimesOut(id)) then [OnTimeout, OnTerminate] else []
    ensures step == Step(atClient, TimesOut(id)) ==> OnCancel in Local(After(steps).value, atClient).own[id].log
  {
    var outgoing, incoming := EndOf(steps, atClient);
    var e := Local(After(steps).value, atClient);
    if step.atClient == atClient {
      ActedOn(e, incoming, step.action, id);
      FinishedHere(e, incoming, step.action, id);
      LifetimeHere(e, id);
    }
    assert e.own[id].log + [] == e.own[id].log;
  }

  /** A cancel of the peer ends any pending request with its timer armed, and the timer ends it once more. */
  lemma CancelThenTimeOut(steps: seq<Step>, atClient: bool, id: int, watched: bool)
    requires After(steps).Some?
    requires var e := Local(After(steps).value, atClient);
             !e.closed && !e.faulted && id in e.own && e.own[id].log == []
    ensures var later := Receive(Local(After(steps).value, atClient), Cancel(id), watched);
            && id in later.own && later.own[id].armed && Terminates(later.own[id].log) == 1
            && Terminates(TimeOut(later, id).endpoint.own[id].log) == 2
  {
    var outgoing, incoming := EndOf(steps, atClient);
    var e := Local(After(steps).value, atClient);
    assert Pending(e.own[id]) && id in e.table;
    CancelledTwiceOver(e.own[id]);
    ReceivedBy(e, Cancel(id), watched, id);
  }

  lemma CancelledTwiceOver(s: Stream)
    requires Pending(s)
    ensures SetCancel(s).armed && Terminates(SetCancel(s).log) == 1 && Terminates(Expire(SetCancel(s)).log) == 2
  {
    var t := SetCancel(s);
    assert t.log == [OnCancel, OnTerminate] && Expire(t).log == [OnCancel, OnTerminate, OnTimeout, OnTerminate];
    LogOfTheCancelled(t);
    LogOfTheCancelled(Expire(t));
  }

  /// Late frames

  lemma LateHere(e: Endpoint, m: Message, watched: bool)
    requires Lifecycle(e) && !e.closed && !e.faulted && (m.Response? || m.Error?)
    requires m.id in e.own && e.own[m.id].log != []
    ensures Receive(e, m, watched) == e <==> m.Response? || StreamScoped(m.code)
    ensures m.Error? && Unlisted(m.code) <==> Receive(e, m, watched).faulted
    ensures m.Error? && ConnectionScoped(m.code) ==> Receive(e, m, watched).alarms == e.alarms + [m.code]
    ensures Receive(e, m, watched).closing == (e.closing || (m.Error? && ConnectionScoped(m.code) && !watched))
    ensures Receive(e, m, watched).own == e.own
  {
    assert m.id !in e.table;
    assert e.table - {m.id} == e.table;
    if m.Error? {
      assert |e.alarms + [m.code]| != |e.alarms|;
    }
  }

  /** A response or error for a request that has ended changes nothing if and only if it is a response, or an error with
      a code that concerns the stream. An error with any other code is announced on the connection, which closes itself
      unless somebody listens, or is thrown because nobody can listen. The requests are untouched in any case. */
  lemma LateFramesExactly(steps: seq<Step>, atClient: bool, m: Message, watched: bool)
    requires After(steps).Some? && (m.Response? || m.Error?)
    requires var e := Local(After(steps).value, atClient);
             !e.closed && !e.faulted && m.id in e.own && e.own[m.id].log != []
    ensures var e := Local(After(steps).value, atClient);
            var later := Receive(e, m, watched);
            && (later == e <==> m.Response? || StreamScoped(m.code))
            && (later.faulted <==> m.Error? && Unlisted(m.code))
            && (later.closing <==> e.closing || (m.Error? && ConnectionScoped(m.code) && !watched))
            && later.own == e.own
  {
    var outgoing, incoming := EndOf(steps, atClient);
    LateHere(Local(After(steps).value, atClient), m, watched);
  }

  /// Runs that show what can happen

  lemma OneMore(steps: seq<Step>, s: System, step: Step) returns (s': System)
    requires After(steps) == Some(s) && CanStep(s, step)
    ensures s' == Next(s, step) && After(steps + [step]) == Some(s')
  {
    s' := Next(s, step);
    assert (steps + [step])[..|steps|] == steps;
  }

  /** The client asks; the server hears SETUP and the request. */
  const ARRIVAL := [Step(true, Asks(NOTHING))] + [Step(false, Hears(false))] + [Step(false, Hears(false))]

  lemma RequestArrives() returns (s: System)
    ensures After(ARRIVAL) == Some(s) && s.toServer == s.toClient == []
    ensures s.client == Ask(INITIAL.client, NOTHING).endpoint
    ensures 1 in s.server.served && !s.server.closed && !s.server.closing && !s.server.faulted
  {
    var s0 := OneMore([], INITIAL, Step(true, Asks(NOTHING)));
    assert [] + [Step(true, Asks(NOTHING))] == [Step(true, Asks(NOTHING))];
    assert s0.toServer == [Setup, Request(1, NOTHING)];
    var s1 := OneMore([Step(true, Asks(NOTHING))], s0, Step(false, Hears(false)));
    assert s1.toServer == [Request(1, NOTHING)] && s1.server.isSetup;
    s := OneMore([Step(true, Asks(NOTHING))] + [Step(false, Hears(false))], s1, Step(false, Hears(false)));
  }

  /** What a responder can send about a request. */
  function Sent(a: Action): Message
    requires a.Answers? || a.Refuses? || a.CancelsPeer?
  {
    match a
    case Answers(id, p) => Response(id, p)
    case Refuses(id, code, p) => Error(id, code, p)
    case CancelsPeer(id) => Cancel(id)
  }

  lemma SendsOne(e: Endpoint, incoming: seq<Message>, a: Action)
    requires a.Answers? || a.Refuses? || a.CancelsPeer?
    requires Enabled(e, incoming, a)
    ensures var t := Act(e, incoming, a);
            && t.sent == [Sent(a)]
            && t.endpoint.served == e.served && t.endpoint.closed == e.closed
            && t.endpoint.closing == e.closing && t.endpoint.faulted == e.faulted
  {}

  /** The server does something about the request that sends one frame. */
  lemma AnswerIsSent(a: Action) returns (s: System)
    requires a.Answers? || a.Refuses? || a.CancelsPeer?
    requires a.id == 1
    ensures After(ARRIVAL + [Step(false, a)]) == Some(s)
    ensures s.client == Ask(INITIAL.client, NOTHING).endpoint && s.toClient == [Sent(a)]
    ensures 1 in s.server.served && !s.server.closed && !s.server.closing && !s.server.faulted
  {
    var s0 := RequestArrives();
    SendsOne(s0.server, s0.toServer, a);
    s := OneMore(ARRIVAL, s0, Step(false, a));
    assert s.client == s0.client && s.toClient == [] + [Sent(a)];
  }

  /** And the client hears that frame. */
  lemma AnswerArrives(a: Action, watched: bool) returns (s: System)
    requires a.Answers? || a.Refuses? || a.CancelsPeer?
    requires a.id == 1
    ensures After(ARRIVAL + [Step(false, a)] + [Step(true, Hears(watched))]) == Some(s)
    ensures s.client == Receive(Ask(INITIAL.client, NOTHING).endpoint, Sent(a), watched) && s.toClient == []
    ensures 1 in s.server.served && !s.server.closed && !s.server.closing && !s.server.faulted
  {
    var s1 := AnswerIsSent(a);
    s := OneMore(ARRIVAL + [Step(false, a)], s1, Step(true, Hears(watched)));
    assert s.server == s1.server;
  }

  /** The peer cancels, and then the timer fires: the request terminates twice. */
  lemma CancelledByResponder()
    ensures var end := After(ARRIVAL + [Step(false, CancelsPeer(1))] + [Step(true, Hears(false))]
                             + [Step(true, TimesOut(1))]);
            end.Some? && 1 in end.value.client.own
            && end.value.client.own[1].log == [OnCancel, OnTerminate, OnTimeout, OnTerminate]
  {
    var s := AnswerArrives(CancelsPeer(1), false);
    assert s.client.own[1].log == [OnCancel, OnTerminate];
    var end := OneMore(ARRIVAL + [Step(false, CancelsPeer(1))] + [Step(true, Hears(false))], s, Step(true, TimesOut(1)));
  }

  /** The peer answers with a CONNECTION_ERROR: the request terminates, and that is all it says. */
  lemma ConnectionErrorIsSilent(p: Payload)
    ensures var end := After(ARRIVAL + [Step(false, Refuses(1, CONNECTION_ERROR, p))] + [Step(true, Hears(false))]);
            end.Some? && 1 in end.value.client.own && end.value.client.own[1].log == [OnTerminate]
            && end.value.client.closing
  {
    var s := AnswerArrives(Refuses(1, CONNECTION_ERROR, p), false);
    assert s.client.own[1].log == [] + [] + [OnTerminate];
  }

  lemma AbandonmentIsSent() returns (s: System)
    ensures After(ARRIVAL + [Step(true, Abandons(1))]) == Some(s)
    ensures s.client == Ask(INITIAL.client, NOTHING).endpoint && s.toClient == []
    ensures 1 in s.server.served && !s.server.closed && !s.server.closing && !s.server.faulted
  {
    var s0 := RequestArrives();
    s := OneMore(ARRIVAL, s0, Step(true, Abandons(1)));
    assert s.client == s0.client && s.server == s0.server && s.toClient == [];
  }

  /** The requester cancels, and is told of the response all the same. */
  lemma AbandonedIsAnswered(p: Payload)
    ensures var end := After(ARRIVAL + [Step(true, Abandons(1))] + [Step(false, Answers(1, p))]
                             + [Step(true, Hears(false))]);
            end.Some? && 1 in end.value.client.own
            && end.value.client.own[1].log == [OnResponse(p), OnTerminate]
  {
    var s1 := AbandonmentIsSent();
    SendsOne(s1.server, s1.toServer, Answers(1, p));
    var s2 := OneMore(ARRIVAL + [Step(true, Abandons(1))], s1, Step(false, Answers(1, p)));
    assert s2.client == s1.client && s2.toClient == [Response(1, p)];
    var s3 := OneMore(ARRIVAL + [Step(true, Abandons(1))] + [Step(false, Answers(1, p))], s2, Step(true, Hears(false)));
    assert [] + p.data == p.data && [] + p.metadata == p.metadata;
  }

  /** The peer answers, and then answers again with an error: the late error can halt the requester's end, or make it
      close its connection. */
  lemma LateErrorArrives(p: Payload, code: nat, watched: bool)
    ensures var end := After(ARRIVAL + [Step(false, Answers(1, p))] + [Step(true, Hears(watched))]
                             + [Step(false, Refuses(1, code, p))] + [Step(true, Hears(watched))]);
            && end.Some? && 1 in end.value.client.own
            && end.value.client.own[1].log == [OnResponse(p), OnTerminate]
            && (end.value.client.faulted <==> Unlisted(code))
            && (end.value.client.closing <==> ConnectionScoped(code) && !watched)
  {
    var steps := ARRIVAL + [Step(false, Answers(1, p))] + [Step(true, Hears(watched))];
    var s0 := AnswerArrives(Answers(1, p), watched);
    assert [] + p.data == p.data && [] + p.metadata == p.metadata;
    assert s0.client.own[1].log == [OnResponse(p), OnTerminate] && 1 !in s0.client.table;
    var s1 := OneMore(steps, s0, Step(false, Refuses(1, code, p)));
    assert s1.toClient == [Error(1, code, p)];
    var s2 := OneMore(steps + [Step(false, Refuses(1, code, p))], s1, Step(true, Hears(watched)));
  }
}
