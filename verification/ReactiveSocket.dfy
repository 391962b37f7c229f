/** The connection and its streams as objects: every handler does to the stream table and the streams what the
    endpoint of the protocol model does. */
module Sockets {
  import opened Results
  import opened Endpoints

  /** What announcing an error comes to beyond the stream itself. */
  datatype Raised = Nothing | OnConnection | Thrown

  class RSStream {
    const id: int
    const ours: bool         // made for a request of our own, whose application listens to it
    var ofPeer: bool         // a request of the peer has come for it: the connection listens, and forgets it on
                             // response or error
    var expired: bool
    var armed: bool          // a timeout is pending
    var response: Payload
    var log: seq<Event>      // the events emitted, oldest first

    constructor (id: int, ours: bool)
      ensures this.id == id && this.ours == ours && !ofPeer && View() == STARTED.(armed := false)
    {
      this.id, this.ours, ofPeer := id, ours, false;
      expired, armed, response, log := false, false, NOTHING, [];
    }

    predicate Listened()
      reads this
    {
      ours || ofPeer
    }

    function View(): Stream
      reads this
    {
      Stream(expired, armed, response, log)
    }

    method Emit(e: Event)
      modifies this`log
      ensures log == old(log) + [e]
    {
      log := log + [e];
    }

    method StartTimeout()
      modifies this`armed
      ensures armed
    {
      armed := true;
    }

    /** Response data and metadata grow with each frame; the listeners are told, then terminate follows. */
    method SetResponse(p: Payload)
      modifies this
      ensures View() == Endpoints.SetResponse(old(View()), p)
    {
      if expired { return; }
      armed := false;
      response := Payload(response.data + p.data, response.metadata + p.metadata);
      Emit(OnResponse(response));
      Emit(OnTerminate);
    }

    /** An error code outside the list, or a transport error, is emitted as 'error': without a listener that throws, before
        the stream terminates. */
    method SetError(code: Option<nat>, p: Payload) returns (raised: Raised)
      modifies this`armed, this`log
      ensures raised.Thrown? <==> !expired && !Listened() && (code.None? || Unlisted(code.value))
      ensures raised.OnConnection? <==> !expired && code.Some? && ConnectionScoped(code.value)
      ensures !raised.Thrown? ==> View() == Endpoints.SetError(old(View()), code, p)
      ensures raised.Thrown? ==> log == old(log)
    {
      raised := Nothing;
      if expired { return; }
      armed := false;
      if code.Some? && ConnectionScoped(code.value) {
        raised := OnConnection;
      } else if !Listened() && (code.None? || Unlisted(code.value)) {
        return Thrown;
      }
      if code != Some(CONNECTION_ERROR) {
        Emit(OnError(code, p));
      }
      Emit(OnTerminate);
    }

    method SetCancel()
      modifies this
      ensures View() == Endpoints.SetCancel(old(View()))
    {
      Emit(OnCancel);
      Emit(OnTerminate);
    }

    /** The first half of the timer's callback; the second runs once the cancel has been sent. */
    method MarkExpired()
      modifies this`expired, this`armed
      ensures expired && !armed
    {
      expired := true;
      armed := false;
    }
  }

  /** The stream table and the last id given out. */
  class StreamTable {
    var latest: int
    var streams: map<int, RSStream>
    ghost var created: map<int, RSStream>      // every stream of an own request, also after it left the table

    ghost predicate Sane()
      reads this
    {
      && latest >= -1
      && (forall id | id in created :: created[id].id == id && created[id].ours && 0 < id <= latest)
      && (forall id | id in streams :: streams[id].id == id)
    }

    /** The id of an own request leads to the stream made for it, any other id but the setup stream's to a stream of the
        peer. An error thrown out of a handler leaves a stream behind for which this does not hold. */
    ghost predicate TidyAt(id: int)
      requires id in streams
      reads this, streams.Values
    {
      if id in created then streams[id] == created[id] && !streams[id].ofPeer
      else !streams[id].ours && !streams[id].expired && (streams[id].ofPeer <==> id != 0)
    }

    ghost predicate Tidy()
      reads this, streams.Values
    {
      forall id | id in streams :: TidyAt(id)
    }

    ghost predicate Valid()
      reads this, streams.Values
    {
      Sane() && Tidy()
    }

    /** What has become of the own requests. */
    ghost function Own(): map<int, Stream>
      reads this, created.Values
    {
      map id | id in created :: created[id].View()
    }

    /** The same, after the stream found under `id`, if one was found and it is that of an own request, has become `s`. */
    static ghost function Replaced(own: map<int, Stream>, found: bool, id: int, s: Stream): map<int, Stream> {
      if found && id in own then own[id := s] else own
    }

    /** What touches only the stream found under `id` changes at most that request. */
    twostate lemma OneStreamTouched(id: int, new s: RSStream)
      requires old(Valid()) && created == old(created) && s.id == id
      requires if id in old(streams) then s == old(streams)[id] else fresh(s)
      requires forall x | x in created && created[x] != s :: created[x].View() == old(created[x].View())
      ensures Own() == Replaced(old(Own()), id in old(streams), id, s.View())
    {
      var expected := Replaced(old(Own()), id in old(streams), id, s.View());
      assert Own().Keys == created.Keys == expected.Keys;
      forall x | x in created
        ensures Own()[x] == expected[x]
      {
        if created[x] == s { assert x == id; }
      }
    }

    /** Likewise for the stream of an own request, old or new, that the caller knows. */
    twostate lemma OwnStreamTouched(new s: RSStream)
      requires Sane() && old(Sane()) && created == old(created)[s.id := s]
      requires forall x | x in old(created) && old(created)[x] != s && x != s.id ::
        created[x].View() == old(created[x].View())
      ensures Own() == old(Own())[s.id := s.View()]
    {
      var expected := old(Own())[s.id := s.View()];
      assert Own().Keys == created.Keys == expected.Keys;
      forall x | x in created
        ensures Own()[x] == expected[x]
      {
        if x != s.id { assert old(created)[x] != s; }
      }
    }

    /** A client opens its setup stream. */
    constructor (client: bool)
      ensures Valid() && latest == (if client then -1 else 0) && created == map[]
      ensures streams.Keys == (if client then {0} else {}) && fresh(streams.Values)
    {
      latest := if client then -1 else 0;
      created := map[];
      if client {
        var setupStream := new RSStream(0, false);
        streams := map[0 := setupStream];
      } else {
        streams := map[];
      }
    }

    /** The stream in the table, or a new one put there, to which nobody listens. */
    method GetStream(id: int) returns (s: RSStream)
      modifies this`streams
      ensures streams == old(streams)[id := s]
      ensures if id in old(streams) then s == old(streams)[id]
              else fresh(s) && s.id == id && !s.Listened() && !s.ofPeer && !s.expired
    {
      if id !in streams {
        var made := new RSStream(id, false);
        streams := streams[id := made];
      }
      s := streams[id];
    }

    method DeleteStream(id: int)
      modifies this`streams
      ensures streams == old(streams) - {id}
    {
      streams := streams - {id};
    }

    /** What is forgotten need not be tidy. */
    method ForgetStream(id: int)
      requires Sane() && forall x | x in streams && x != id :: TidyAt(x)
      modifies this`streams
      ensures Valid() && created == old(created) && Own() == old(Own())
      ensures streams.Keys == old(streams.Keys) - {id}
    {
      DeleteStream(id);
      assert streams.Keys == old(streams.Keys) - {id};
      forall x | x in streams
        ensures TidyAt(x)
      {
        assert old(TidyAt(x));
      }
    }

    /** The stream of a new request, with its timer running. */
    method GetNewStream() returns (s: RSStream)
      requires Valid()
      modifies this
      ensures Valid() && fresh(s) && s.id == latest == old(latest) + 2
      ensures created == old(created)[latest := s] && streams == old(streams)[latest := s]
      ensures streams.Keys == old(streams.Keys) + {latest}
      ensures Own() == old(Own())[latest := STARTED]
    {
      s := new RSStream(latest + 2, true);
      latest := latest + 2;
      streams := streams[latest := s];
      created := created[latest := s];
      s.StartTimeout();
      OwnStreamTouched(s);
      assert streams.Keys == old(streams.Keys) + {s.id};
    }

    /** The callback of a request's timer, once it has told the peer. */
    method Expires(s: RSStream)
      requires Valid() && s.id in created && created[s.id] == s && s.armed
      modifies this`streams, s
      ensures Valid() && created == old(created)
      ensures streams.Keys == old(streams.Keys) - {s.id}
      ensures Own() == old(Own())[s.id := Expire(old(s.View()))]
    {
      s.MarkExpired();
      s.Emit(OnTimeout);
      DeleteStream(s.id);
      s.Emit(OnTerminate);
      assert s.View() == Expire(old(s.View()));
      assert created[s.id := s] == created;
      OwnStreamTouched(s);
      assert streams.Keys == old(streams.Keys) - {s.id};
    }

    method OpenSetup()
      requires Valid()
      modifies this`streams
      ensures Valid() && created == old(created) && Own() == old(Own())
      ensures streams.Keys == old(streams.Keys) + {0}
    {
      var s := GetStream(0);
      assert streams.Keys == old(streams.Keys) + {0};
    }

    /** A request of the peer: the connection listens to its stream. */
    method Serve(id: int)
      requires Valid() && id != 0 && id !in created
      modifies this`streams, streams.Values
      ensures Valid() && created == old(created) && Own() == old(Own())
      ensures streams.Keys == old(streams.Keys) + {id}
    {
      var s := GetStream(id);
      s.ofPeer := true;
      OneStreamTouched(id, s);
      assert streams.Keys == old(streams.Keys) + {id};
    }

    /// Frames find or make a stream, tell it, and have it forgotten

    method TellResponse(id: int, p: Payload)
      requires Valid()
      modifies this`streams, streams.Values
      ensures Valid() && created == old(created)
      ensures streams.Keys == old(streams.Keys) - {id}
      ensures id in created ==>
        Own() == Replaced(old(Own()), id in old(streams), id, Endpoints.SetResponse(old(Own())[id], p))
      ensures id !in created ==> Own() == old(Own())
    {
      var s := GetStream(id);
      s.SetResponse(p);
      DeleteStream(id);
      OneStreamTouched(id, s);
      assert streams.Keys == old(streams.Keys) - {id};
    }

    method TellCancel(id: int)
      requires Valid()
      modifies this`streams, streams.Values
      ensures Valid() && created == old(created)
      ensures streams.Keys == old(streams.Keys) - {id}
      ensures id in created ==> Own() == Replaced(old(Own()), id in old(streams), id, Endpoints.SetCancel(old(Own())[id]))
      ensures id !in created ==> Own() == old(Own())
    {
      var s := GetStream(id);
      s.SetCancel();
      DeleteStream(id);
      OneStreamTouched(id, s);
      assert streams.Keys == old(streams.Keys) - {id};
    }

    /** The stream an error frame finds is told of it; it stays in the table for the time being. */
    method TellError(id: int, code: nat, p: Payload) returns (raised: Raised)
      requires Valid()
      modifies this`streams, streams.Values
      ensures Sane() && created == old(created)
      ensures streams.Keys == old(streams.Keys) + {id}
      ensures forall x | x in streams && x != id :: TidyAt(x)
      ensures id in old(streams) || id == 0 ==> Tidy()
      ensures raised.Thrown? <==> Unlisted(code) && !(id in old(streams) && (id in created || id != 0))
      ensures raised.OnConnection?
         <==> ConnectionScoped(code) && !(id in old(streams) && id in created && old(Own())[id].expired)
      ensures id in created ==>
        Own() == Replaced(old(Own()), id in old(streams), id, Endpoints.SetError(old(Own())[id], Some(code), p))
      ensures id !in created ==> Own() == old(Own())
    {
      var s := GetStream(id);
      raised := s.SetError(Some(code), p);
      OneStreamTouched(id, s);
      assert streams.Keys == old(streams.Keys) + {id};
    }

    /** If the error is thrown, the handler does not come to forgetting the stream. */
    method TellAndForget(id: int, code: nat, p: Payload) returns (raised: Raised)
      requires Valid()
      modifies this`streams, streams.Values
      ensures Sane() && created == old(created) && (raised != Thrown ==> Tidy())
      ensures streams.Keys == if raised == Thrown then old(streams.Keys) + {id} else old(streams.Keys) - {id}
      ensures raised == Thrown <==> Unlisted(code) && !(id in old(streams) && (id in created || id != 0))
      ensures raised == OnConnection
         <==> ConnectionScoped(code) && !(id in old(streams) && id in created && old(Own())[id].expired)
      ensures id in created ==>
        Own() == Replaced(old(Own()), id in old(streams), id, Endpoints.SetError(old(Own())[id], Some(code), p))
      ensures id !in created ==> Own() == old(Own())
    {
      raised := TellError(id, code, p);
      if raised != Thrown {
        ForgetStream(id);
      }
    }

    /// The end of the transport

    static ghost function Told(s: Stream): Stream {
      Endpoints.SetError(s, None, NOTHING)
    }

    /** What closing has made of the own requests while the streams in `left` are still to be told. */
    ghost predicate Closing(before: map<int, Stream>, table: map<int, RSStream>, left: set<int>)
      reads this, created.Values
    {
      && before.Keys == created.Keys
      && forall id | id in created ::
           created[id].View()
           == if id in table && id !in left then Told(before[id]) else before[id]
    }

    /** The setup stream and the streams of own requests are not taken out of the table. */
    ghost predicate Stays(id: int)
      reads this
    {
      id == 0 || id in created
    }

    ghost predicate HalfClosed(before: map<int, Stream>, table: map<int, RSStream>, left: set<int>)
      reads this, streams.Values, created.Values
    {
      && Valid() && Closing(before, table, left)
      && (forall x | x in streams :: x in table && streams[x] == table[x])
      && (forall x | x in table && x in created :: table[x] == created[x])
      && (forall x | x in streams :: Stays(x) || x in left)
      && (forall x | x in table && (Stays(x) || x in left) :: x in streams)
    }

    /** One stream is told. A stream of the peer leaves the table: its listener sees the error. */
    method CloseStream(id: int, ghost before: map<int, Stream>, ghost table: map<int, RSStream>, ghost left: set<int>)
      requires HalfClosed(before, table, left) && id != 0 && id in left && id in table && id in streams
      modifies this`streams, streams[id]
      ensures HalfClosed(before, table, left - {id}) && created == old(created)
      ensures forall x | x in streams :: x in old(streams) && streams[x] == old(streams)[x]
    {
      var s := streams[id];
      var raised := s.SetError(None, NOTHING);
      assert raised == Nothing;
      if s.ofPeer {
        DeleteStream(id);
      }
      forall x | x in created
        ensures created[x].View()
             == if x in table && x !in left - {id} then Told(before[x]) else before[x]
      {
        if x != id { assert created[x] != s; }
      }
    }

    /** The loop over the table. */
    method TellAll(ghost before: map<int, Stream>, ghost table: map<int, RSStream>)
      requires Valid() && before == Own() && table == streams
      modifies this`streams, streams.Values
      ensures HalfClosed(before, table, {}) && created == old(created)
    {
      var left: set<int> := streams.Keys;
      while left != {}
        invariant left <= table.Keys && HalfClosed(before, table, left) && created == old(created)
        invariant forall x | x in streams :: x in old(streams) && streams[x] == old(streams)[x]
        decreases left
      {
        NotEmpty(left);
        var id :| id in left;
        if id != 0 {
          assert id in table && id in streams;
          CloseStream(id, before, table, left);
        }
        left := left - {id};
      }
    }

    static lemma NotEmpty(s: set<int>)
      ensures s == {} || exists x :: x in s
    {
      if forall x :: x !in s { assert s == {}; }
    }

    lemma AllClosed(before: map<int, Stream>, table: map<int, RSStream>)
      requires HalfClosed(before, table, {})
      ensures Own() == ClosedOwn(before, table.Keys)
      ensures streams.Keys == ClosedTable(before, table.Keys)
    {
      assert Own().Keys == ClosedOwn(before, table.Keys).Keys;
      forall id | id in created
        ensures Own()[id] == ClosedOwn(before, table.Keys)[id]
      {
        assert Own()[id] == created[id].View();
      }
      forall id
        ensures id in streams <==> id in ClosedTable(before, table.Keys)
      {
        assert Stays(id) <==> id == 0 || id in before;
      }
    }

    /** Every stream but the setup stream is told, in whatever order. */
    method CloseAll()
      requires Valid()
      modifies this`streams, streams.Values
      ensures Valid() && created == old(created)
      ensures Own() == ClosedOwn(old(Own()), old(streams.Keys))
      ensures streams.Keys == ClosedTable(old(Own()), old(streams.Keys))
    {
      ghost var before, table := Own(), streams;
      TellAll(before, table);
      AllClosed(before, table);
    }
  }

  class ReactiveSocket {
    const client: bool
    const table: StreamTable
    var isSetup: bool
    var closed: bool           // the transport has closed
    var closing: bool          // the connection has closed itself
    var faulted: bool          // a handler has thrown
    var alarms: seq<nat>       // the errors announced on the connection
    var sent: seq<Message>
    ghost var asked: map<int, Payload>
    ghost var served: map<int, Payload>
    ghost var answered: set<(int, Payload)>
    ghost var refused: set<(int, nat, Payload)>

    ghost predicate Valid()
      reads this, table, table.streams.Values
    {
      table.Sane() && (!faulted ==> table.Tidy())
    }

    /** The endpoint this connection is. */
    ghost function View(): Endpoint
      reads this, table, table.created.Values
    {
      Endpoint(client, isSetup, closed, closing, faulted, alarms, table.latest, table.Own(), table.streams.Keys,
               asked, served, answered, refused)
    }

    constructor (client: bool)
      ensures Valid() && View() == NewEndpoint(client)
      ensures sent == (if client then [Setup] else []) && fresh(table) && fresh(table.streams.Values)
    {
      this.client := client;
      isSetup, closed, closing, faulted, alarms := false, false, false, false, [];
      asked, served, answered, refused := map[], map[], {}, {};
      table := new StreamTable(client);
      sent := if client then [Setup] else [];
    }

    method Send(m: Message)
      modifies this`sent
      ensures sent == old(sent) + [m]
    {
      sent := sent + [m];
    }

    /** An error that concerns the connection is announced on it; if nobody listens there, the connection closes itself.
        One that is thrown ends the handler. */
    method Announce(raised: Raised, code: nat, watched: bool)
      modifies this`alarms, this`closing, this`faulted
      ensures alarms == if raised == OnConnection then old(alarms) + [code] else old(alarms)
      ensures closing == (old(closing) || (raised == OnConnection && !watched))
      ensures faulted == (old(faulted) || raised == Thrown)
    {
      if raised == OnConnection {
        alarms := alarms + [code];
        if !watched {
          closing := true;
        }
      } else if raised == Thrown {
        faulted := true;
      }
    }

    /// Requests of our own

    method Request(p: Payload) returns (s: RSStream)
      requires Valid() && !faulted
      modifies table, this`sent, this`asked
      ensures Valid() && fresh(s) && table.created == old(table.created)[s.id := s]
      ensures View() == Ask(old(View()), p).endpoint
      ensures sent == old(sent) + Ask(old(View()), p).sent
    {
      s := table.GetNewStream();
      Send(Message.Request(s.id, p));
      asked := asked[s.id := p];
    }

    /** The callback of a request's timer. */
    method OnTimeOut(s: RSStream)
      requires Valid() && !faulted && s.id in table.created && table.created[s.id] == s && s.armed
      modifies table`streams, this`sent, s
      ensures Valid()
      ensures View() == TimeOut(old(View()), s.id).endpoint
      ensures sent == old(sent) + TimeOut(old(View()), s.id).sent
    {
      Send(Cancel(s.id));
      table.Expires(s);
    }

    /// Requests of the peer

    /** The application answers; the listener attached when the request came in forgets the stream. */
    method Respond(id: int, p: Payload)
      requires Valid() && !faulted && id in served
      modifies table`streams, this`sent, this`answered
      ensures Valid()
      ensures View() == Answer(old(View()), id, p).endpoint
      ensures sent == old(sent) + Answer(old(View()), id, p).sent
    {
      Send(Message.Response(id, p));
      answered := answered + {(id, p)};
      table.DeleteStream(id);
    }

    method HandleRequest(id: int, p: Payload)
      requires Valid() && !faulted && id != 0 && id !in table.created
      modifies table`streams, this`served, table.streams.Values
      ensures Valid() && View() == ReceiveRequest(old(View()), id, p)
    {
      if !isSetup && !client { return; }
      table.Serve(id);
      served := served[id := p];
    }

    /// Frames that resolve a request

    method HandleResponse(id: int, p: Payload)
      requires Valid() && !faulted
      modifies table`streams, table.streams.Values
      ensures Valid() && View() == Receive(old(View()), Message.Response(id, p), false)
    {
      table.TellResponse(id, p);
    }

    method HandleError(id: int, code: nat, p: Payload, watched: bool)
      requires Valid() && !faulted
      modifies table`streams, this`alarms, this`closing, this`faulted, table.streams.Values
      ensures Valid() && View() == ReceiveError(old(View()), id, code, p, watched)
    {
      var raised := table.TellAndForget(id, code, p);
      Announce(raised, code, watched);
    }

    method HandleCancel(id: int)
      requires Valid() && !faulted
      modifies table`streams, table.streams.Values
      ensures Valid() && View() == Receive(old(View()), Cancel(id), false)
    {
      table.TellCancel(id);
    }

    /** A second SETUP, or one that reaches a client, is rejected on the setup stream. */
    method HandleSetup(rejection: Payload, watched: bool)
      requires Valid() && !faulted
      modifies table`streams, this`isSetup, this`alarms, this`closing, this`faulted, table.streams.Values
      ensures Valid() && View() == ReceiveSetup(old(View()), watched)
    {
      if isSetup || client {
        assert 0 !in table.created;
        var raised := table.TellError(0, REJECTED_SETUP, rejection);
        Announce(raised, REJECTED_SETUP, watched);
      } else {
        table.OpenSetup();
        isSetup := true;
      }
    }

    method OnTransportClose()
      requires Valid() && !closed && !faulted
      modifies table`streams, this`closed, table.streams.Values
      ensures Valid() && View() == CloseTransport(old(View()))
    {
      closed := true;
      table.CloseAll();
    }
  }
}
