/** One end of a connection as a value: its request streams, its stream table, and what each handler does. */
module Endpoints {
  import opened Results

  datatype Payload = Payload(data: string, metadata: string)

  const NOTHING := Payload([], [])

  /** The frames that touch streams. */
  datatype Message =
    | Setup
    | Request(id: int, payload: Payload)
    | Response(id: int, payload: Payload)
    | Error(id: int, code: nat, payload: Payload)
    | Cancel(id: int)

  const REJECTED_SETUP := 0x3
  const CONNECTION_ERROR := 0x101

  /** Setup and connection errors concern the connection and are announced there, the latter not on the stream at all. */
  predicate ConnectionScoped(code: nat) {
    code == 0x1 || code == 0x2 || code == REJECTED_SETUP || code == CONNECTION_ERROR
  }

  /** Announced on the stream under a name that nobody needs to listen to. */
  predicate StreamScoped(code: nat) {
    code == 0x201 || code == 0x202 || code == 0x203 || code == 0x204 || code == 0xFFFFFFFF
  }

  /** Any other code is announced as 'error', which throws when nobody listens. */
  predicate Unlisted(code: nat) {
    !ConnectionScoped(code) && !StreamScoped(code)
  }

  /** What the requester's listeners see. A transport failure has no error code. */
  datatype Event =
    | OnResponse(payload: Payload)
    | OnError(code: Option<nat>, payload: Payload)
    | OnTimeout
    | OnCancel
    | OnTerminate

  /// A stream: the requester's handle on one request

  datatype Stream = Stream(expired: bool, armed: bool, response: Payload, log: seq<Event>)

  const STARTED := Stream(false, true, NOTHING, [])

  function Expire(s: Stream): Stream {
    s.(expired := true, armed := false, log := s.log + [OnTimeout, OnTerminate])
  }

  /** The response grows with each frame; a single-fragment response is announced at once. */
  function SetResponse(s: Stream, p: Payload): Stream {
    if s.expired then s
    else
      var response := Payload(s.response.data + p.data, s.response.metadata + p.metadata);
      s.(armed := false, response := response, log := s.log + [OnResponse(response), OnTerminate])
  }

  function ErrorEvents(code: Option<nat>, p: Payload): seq<Event> {
    if code == Some(CONNECTION_ERROR) then [] else [OnError(code, p)]
  }

  function SetError(s: Stream, code: Option<nat>, p: Payload): Stream {
    if s.expired then s
    else s.(armed := false, log := s.log + ErrorEvents(code, p) + [OnTerminate])
  }

  /** Unlike the other outcomes, a cancel leaves the timer running. */
  function SetCancel(s: Stream): Stream {
    s.(log := s.log + [OnCancel, OnTerminate])
  }

  /// An end of the connection

  /** `alarms` lists the errors announced on the connection; `closing` is set once nobody listened to one of them and the
      connection closed itself; `faulted` once an error has been thrown out of a handler, which halts this end.
      `own` holds every request stream this end has created, `table` the keys of its stream table. The last four
      record what the applications did: the requests made and heard, the answers given. */
  datatype Endpoint = Endpoint(
    client: bool, isSetup: bool, closed: bool, closing: bool, faulted: bool, alarms: seq<nat>,
    latest: int, own: map<int, Stream>, table: set<int>,
    asked: map<int, Payload>, served: map<int, Payload>,
    answered: set<(int, Payload)>, refused: set<(int, nat, Payload)>)

  /** A client has already opened its setup stream. */
  function NewEndpoint(client: bool): Endpoint {
    Endpoint(client, false, false, false, false, [],
             if client then -1 else 0, map[], if client then {0} else {},
             map[], map[], {}, {})
  }

  datatype Turn = Turn(endpoint: Endpoint, sent: seq<Message>)

  function Ask(e: Endpoint, p: Payload): Turn {
    var id := e.latest + 2;
    Turn(e.(latest := id, own := e.own[id := STARTED], table := e.table + {id}, asked := e.asked[id := p]),
         [Request(id, p)])
  }

  /** The timer of a request fires: a cancel goes out, the table forgets the stream. */
  function TimeOut(e: Endpoint, id: int): Turn
    requires id in e.own
  {
    Turn(e.(own := e.own[id := Expire(e.own[id])], table := e.table - {id}), [Cancel(id)])
  }

  /** The application answers a request it has been handed, possibly late, possibly not for the first time. */
  function Answer(e: Endpoint, id: int, p: Payload): Turn {
    Turn(e.(table := e.table - {id}, answered := e.answered + {(id, p)}), [Response(id, p)])
  }

  /** Answering with an error leaves the table alone. */
  function Refuse(e: Endpoint, id: int, code: nat, p: Payload): Turn {
    Turn(e.(refused := e.refused + {(id, code, p)}), [Error(id, code, p)])
  }

  /** A handler acts on the stream in the table. If there is none it creates one, which nobody listens to. */
  predicate Listens(e: Endpoint, id: int) {
    id in e.table && id in e.own
  }

  function Resolve(e: Endpoint, id: int, s: Stream): Endpoint {
    e.(own := if Listens(e, id) then e.own[id := s] else e.own, table := e.table - {id})
  }

  /** An error that concerns the connection is announced on it. If nobody listens there, it becomes an 'error' of the
      connection, which closes itself: nothing it writes from then on is sent. */
  function Alarms(e: Endpoint, code: nat): seq<nat> {
    if ConnectionScoped(code) then e.alarms + [code] else e.alarms
  }

  predicate ClosesItself(code: nat, watched: bool) {
    ConnectionScoped(code) && !watched
  }

  /** Somebody listens for the errors of the stream that a frame for `id` finds: the application to those of its own
      requests, the connection to those of the peer's. The setup stream, and a stream made for the frame, have no
      listener. */
  predicate Guarded(e: Endpoint, id: int) {
    Listens(e, id) || (id in e.table && id != 0)
  }

  /** A request that timed out hears nothing any more. */
  predicate Deaf(e: Endpoint, id: int) {
    Listens(e, id) && e.own[id].expired
  }

  predicate Throws(e: Endpoint, id: int, code: nat) {
    Unlisted(code) && !Guarded(e, id)
  }

  function ReceiveError(e: Endpoint, id: int, code: nat, p: Payload, watched: bool): Endpoint {
    e.(alarms := if Deaf(e, id) then e.alarms else Alarms(e, code),
       closing := e.closing || (!Deaf(e, id) && ClosesItself(code, watched)),
       faulted := e.faulted || Throws(e, id, code),
       own := if Listens(e, id) then e.own[id := SetError(e.own[id], Some(code), p)] else e.own,
       table := if Throws(e, id, code) then e.table + {id} else e.table - {id})
  }

  /** A second SETUP, or one that reaches a client, is rejected. */
  function ReceiveSetup(e: Endpoint, watched: bool): Endpoint {
    var extra := e.isSetup || e.client;
    e.(table := e.table + {0},
       isSetup := e.isSetup || !e.client,
       alarms := if extra then Alarms(e, REJECTED_SETUP) else e.alarms,
       closing := e.closing || (extra && ClosesItself(REJECTED_SETUP, watched)))
  }

  /** A server ignores requests until it has been set up. */
  function ReceiveRequest(e: Endpoint, id: int, p: Payload): Endpoint {
    var ready := e.isSetup || e.client;
    e.(table := if ready then e.table + {id} else e.table, served := if ready then e.served[id := p] else e.served)
  }

  /** `watched` tells whether the application listens for the connection's errors at that moment. */
  function Receive(e: Endpoint, m: Message, watched: bool): Endpoint {
    match m
    case Setup => ReceiveSetup(e, watched)
    case Request(id, p) => ReceiveRequest(e, id, p)
    case Response(id, p) => Resolve(e, id, if id in e.own then SetResponse(e.own[id], p) else STARTED)
    case Error(id, code, p) => ReceiveError(e, id, code, p, watched)
    case Cancel(id) => Resolve(e, id, if id in e.own then SetCancel(e.own[id]) else STARTED)
  }

  function ClosedOwn(own: map<int, Stream>, table: set<int>): map<int, Stream> {
    map id | id in own :: if id in table then SetError(own[id], None, NOTHING) else own[id]
  }

  function ClosedTable(own: map<int, Stream>, table: set<int>): set<int> {
    set id | id in table && (id == 0 || id in own)
  }

  /** The transport closes: every stream in the table gets the error; the streams of the peer's requests leave the
      table when they do, the own ones stay. */
  function CloseTransport(e: Endpoint): Endpoint {
    e.(closed := true, own := ClosedOwn(e.own, e.table), table := ClosedTable(e.own, e.table))
  }
}
