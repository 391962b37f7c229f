/** Nothing is lost: on every run, whatever an end has sent while its connection was open is under way or has had its
    effect at the other end. */
module Delivery {
  import opened Results
  import opened Endpoints
  import opened Protocol
  import opened Effects

  /** No frame in `channel` from `i` on starts request `id`. */
  predicate NoRequest(channel: seq<Message>, i: nat, id: int) {
    forall j | i <= j < |channel| && channel[j].Request? :: channel[j].id != id
  }

  /** A cancel is under way, behind the request it is about. */
  predicate CancelComing(channel: seq<Message>, i: nat, id: int) {
    i < |channel| && channel[i] == Cancel(id) && NoRequest(channel, i, id)
  }

  /** The peer has not been told of the request, or not yet of its cancel, or knows nothing of it and never will. */
  ghost predicate Forgotten(peer: Endpoint, channel: seq<Message>, id: int) {
    (exists i: nat :: CancelComing(channel, i, id)) || (id !in peer.table && NoRequest(channel, 0, id))
  }

  ghost predicate Resolved(e: Endpoint, id: int) {
    id in e.own && e.own[id].log != []
  }

  /** `e` is the sender. Requests that were made have been handed to the peer, answers that were given have resolved the
      request, requests that timed out have been forgotten by the peer, unless a frame is still under way. */
  ghost predicate Kept(e: Endpoint, peer: Endpoint, channel: seq<Message>) {
    && (forall id | id in e.asked :: id in peer.served || Request(id, e.asked[id]) in channel)
    && (forall id, p | (id, p) in e.answered :: Resolved(peer, id) || Response(id, p) in channel)
    && (forall id, code, p | (id, code, p) in e.refused :: Resolved(peer, id) || Error(id, code, p) in channel)
    && (forall id | id in e.own && e.own[id].expired :: Forgotten(peer, channel, id))
  }

  ghost predicate KeptIfOpen(e: Endpoint, peer: Endpoint, channel: seq<Message>) {
    !e.closed && !e.closing ==> Kept(e, peer, channel)
  }

  /// The sender acts

  lemma LongerChannel(peer: Endpoint, channel: seq<Message>, m: Message, id: int)
    requires Forgotten(peer, channel, id) && (m.Request? ==> m.id != id)
    ensures Forgotten(peer, channel + [m], id)
  {
    if i: nat :| CancelComing(channel, i, id) {
      assert CancelComing(channel + [m], i, id);
    }
  }

  lemma CancelJustSent(peer: Endpoint, channel: seq<Message>, id: int)
    ensures Forgotten(peer, channel + [Cancel(id)], id)
  {
    assert CancelComing(channel + [Cancel(id)], |channel|, id);
  }

  /** What the sender's records add up to: at most one thing more than before, with its frame sent. */
  ghost predicate Recorded(e: Endpoint, later: Endpoint, a: Action) {
    && later.asked == (if a.Asks? then e.asked[e.latest + 2 := a.payload] else e.asked)
    && later.answered == e.answered + (if a.Answers? then {(a.id, a.payload)} else {})
    && later.refused == e.refused + (if a.Refuses? then {(a.id, a.code, a.errorPayload)} else {})
    && (forall id | id in later.own && later.own[id].expired :: (id in e.own && e.own[id].expired) || a == TimesOut(id))
    && (e.closed || e.closing ==> later.closed || later.closing)
  }

  lemma ActIsRecorded(e: Endpoint, incoming: seq<Message>, a: Action)
    requires Lifecycle(e) && Enabled(e, incoming, a)
    ensures Recorded(e, Act(e, incoming, a).endpoint, a)
  {
    match a {
      case Hears(watched) => HearingIsRecorded(e, incoming[0], watched);
      case _ =>
    }
  }

  lemma HearingIsRecorded(e: Endpoint, m: Message, watched: bool)
    requires Lifecycle(e)
    ensures Recorded(e, Receive(e, m, watched), Hears(watched))
  {
    HearingHands(e, m, watched);
    HearingKeepsOwn(e, m, watched);
    ClosingStays(e, m, watched);
    forall id | id in e.own
      ensures Receive(e, m, watched).own[id].expired == e.own[id].expired
    {
      ReceivedBy(e, m, watched, id);
    }
  }

  lemma ClosingStays(e: Endpoint, m: Message, watched: bool)
    ensures e.closed || e.closing ==> Receive(e, m, watched).closed || Receive(e, m, watched).closing
  {
    match m {
      case Error(id, code, p) => ErrorKeepsOwn(e, id, code, p, watched);
      case _ =>
    }
  }

  lemma SenderKeeps(e: Endpoint, peer: Endpoint, outgoing: seq<Message>, incoming: seq<Message>, a: Action)
    requires Joined(e, peer, outgoing, incoming) && Enabled(e, incoming, a)
    requires KeptIfOpen(e, peer, outgoing)
    ensures KeptIfOpen(Act(e, incoming, a).endpoint, peer, Outgoing(e, outgoing, Act(e, incoming, a).sent))
  {
    var t := Act(e, incoming, a);
    ActIsRecorded(e, incoming, a);
    if !t.endpoint.closed && !t.endpoint.closing {
      var longer := outgoing + t.sent;
      NextId(e);
      forall id | id in t.endpoint.own && t.endpoint.own[id].expired
        ensures Forgotten(peer, longer, id)
      {
        ForgottenStill(e, peer, outgoing, incoming, a, id);
      }
      SentIsUnderWay(e, incoming, a, outgoing);
    }
  }

  lemma ForgottenStill(e: Endpoint, peer: Endpoint, outgoing: seq<Message>, incoming: seq<Message>, a: Action, id: int)
    requires Lifecycle(e) && Enabled(e, incoming, a) && Kept(e, peer, outgoing)
    requires (id in e.own && e.own[id].expired) || a == TimesOut(id)
    ensures Forgotten(peer, outgoing + Act(e, incoming, a).sent, id)
  {
    var sent := Act(e, incoming, a).sent;
    if a == TimesOut(id) {
      CancelJustSent(peer, outgoing, id);
    } else if sent == [] {
      assert outgoing + sent == outgoing;
    } else {
      NextId(e);
      LongerChannel(peer, outgoing, sent[0], id);
      assert sent == [sent[0]];
    }
  }

  /** What was under way still is, and what has just been done is too. */
  lemma SentIsUnderWay(e: Endpoint, incoming: seq<Message>, a: Action, outgoing: seq<Message>)
    requires Enabled(e, incoming, a)
    ensures var longer := outgoing + Act(e, incoming, a).sent;
            && (forall m | m in outgoing :: m in longer)
            && (a.Asks? ==> Request(e.latest + 2, a.payload) in longer)
            && (a.Answers? ==> Response(a.id, a.payload) in longer)
            && (a.Refuses? ==> Error(a.id, a.code, a.errorPayload) in longer)
  {
    var sent := Act(e, incoming, a).sent;
    assert forall m | m in sent :: m in outgoing + sent;
    match a {
      case Asks(p) => assert sent[0] in sent;
      case Answers(id, p) => assert sent[0] in sent;
      case Refuses(id, code, p) => assert sent[0] in sent;
      case _ =>
    }
  }

  /// The receiver acts

  /** What the peer has resolved stays resolved, and what it knows of this end's requests only grows by hearing. */
  lemma PeerProgress(peer: Endpoint, incoming: seq<Message>, a: Action, id: int)
    requires Lifecycle(peer) && Enabled(peer, incoming, a) && Resolved(peer, id)
    ensures Resolved(Act(peer, incoming, a).endpoint, id)
  {
    ActedOn(peer, incoming, a, id);
    NewsHere(peer, incoming, a, id);
  }

  lemma QuietPeer(peer: Endpoint, incoming: seq<Message>, a: Action, id: int)
    requires Lifecycle(peer) && Enabled(peer, incoming, a) && !a.Hears? && OwnId(!peer.client, id)
    ensures var later := Act(peer, incoming, a).endpoint;
            later.served == peer.served && (id in later.table ==> id in peer.table)
  {
    QuietTable(peer, incoming, a, id);
    NextId(peer);
  }

  lemma QuietKeeps(e: Endpoint, peer: Endpoint, outgoing: seq<Message>, incoming: seq<Message>, a: Action)
    requires Joined(peer, e, incoming, outgoing) && Enabled(peer, outgoing, a) && !a.Hears?
    requires Kept(e, peer, outgoing)
    ensures Kept(e, Act(peer, outgoing, a).endpoint, outgoing)
  {
    var later := Act(peer, outgoing, a).endpoint;
    forall id | Resolved(peer, id)
      ensures Resolved(later, id)
    {
      PeerProgress(peer, outgoing, a, id);
    }
    forall id | id in e.own
      ensures later.served == peer.served && (id in later.table ==> id in peer.table)
    {
      QuietPeer(peer, outgoing, a, id);
    }
  }

  /// The receiver hears a frame

  lemma HeardFrame(peer: Endpoint, channel: seq<Message>, watched: bool, m: Message)
    requires Lifecycle(peer) && Enabled(peer, channel, Hears(watched)) && m == channel[0]
    requires (m.Response? || m.Error?) && m.id in peer.own
    ensures Resolved(Receive(peer, m, watched), m.id)
  {
    ActedOn(peer, channel, Hears(watched), m.id);
    NewsHere(peer, channel, Hears(watched), m.id);
  }

  lemma InTheRest(channel: seq<Message>, m: Message)
    requires m in channel && m != channel[0]
    ensures m in channel[1..]
  {}

  lemma ForgottenHearing(peer: Endpoint, channel: seq<Message>, watched: bool, id: int)
    requires Lifecycle(peer) && Enabled(peer, channel, Hears(watched)) && Forgotten(peer, channel, id)
    requires id !in peer.own && id > 0 && (channel[0].Error? ==> channel[0].id in peer.own && channel[0].id > 0)
    ensures Forgotten(Receive(peer, channel[0], watched), channel[1..], id)
  {
    var later, rest := Receive(peer, channel[0], watched), channel[1..];
    if channel[0].Error? {
      ErrorTable(peer, channel[0], watched, id);
    } else {
      OtherTable(peer, channel[0], watched, id);
    }
    if i: nat :| CancelComing(channel, i, id) {
      if i == 0 {
        assert NoRequest(rest, 0, id);
      } else {
        assert CancelComing(rest, i - 1, id);
      }
    } else {
      assert NoRequest(rest, 0, id);
    }
  }

  lemma HearKeepsRequests(e: Endpoint, peer: Endpoint, outgoing: seq<Message>, watched: bool)
    requires Enabled(peer, outgoing, Hears(watched)) && (outgoing[0].Request? ==> peer.client || peer.isSetup)
    requires forall id | id in e.asked :: id in peer.served || Request(id, e.asked[id]) in outgoing
    ensures var later := Receive(peer, outgoing[0], watched);
            forall id | id in e.asked :: id in later.served || Request(id, e.asked[id]) in outgoing[1..]
  {
    HearingHands(peer, outgoing[0], watched);
    forall id | id in e.asked && id !in Receive(peer, outgoing[0], watched).served
      ensures Request(id, e.asked[id]) in outgoing[1..]
    {
      InTheRest(outgoing, Request(id, e.asked[id]));
    }
  }

  /** An answer, of either kind, is about a request of the peer's. */
  lemma AnswersAreForPeer(e: Endpoint, peer: Endpoint, id: int)
    requires Lifecycle(e) && Lifecycle(peer) && Backed(e, peer) && id in e.served
    ensures id in peer.own && id > 0
  {
    assert id in peer.asked;
  }

  lemma HearKeepsAnswer(e: Endpoint, peer: Endpoint, outgoing: seq<Message>, watched: bool, m: Message)
    requires Lifecycle(peer) && Enabled(peer, outgoing, Hears(watched))
    requires (m.Response? || m.Error?) && m.id in peer.own
    requires Resolved(peer, m.id) || m in outgoing
    ensures Resolved(Receive(peer, outgoing[0], watched), m.id) || m in outgoing[1..]
  {
    if Resolved(peer, m.id) {
      PeerProgress(peer, outgoing, Hears(watched), m.id);
    } else if m == outgoing[0] {
      HeardFrame(peer, outgoing, watched, m);
    } else {
      InTheRest(outgoing, m);
    }
  }

  lemma HearKeepsKept(e: Endpoint, peer: Endpoint, outgoing: seq<Message>, incoming: seq<Message>, watched: bool)
    requires Joined(peer, e, incoming, outgoing) && Enabled(peer, outgoing, Hears(watched))
    requires outgoing[0].Request? ==> peer.client || peer.isSetup
    requires Kept(e, peer, outgoing)
    ensures Kept(e, Receive(peer, outgoing[0], watched), outgoing[1..])
  {
    var later, rest := Receive(peer, outgoing[0], watched), outgoing[1..];
    HearKeepsRequests(e, peer, outgoing, watched);
    forall id, p | (id, p) in e.answered
      ensures Resolved(later, id) || Response(id, p) in rest
    {
      AnswersAreForPeer(e, peer, id);
      HearKeepsAnswer(e, peer, outgoing, watched, Response(id, p));
    }
    forall id, code, p | (id, code, p) in e.refused
      ensures Resolved(later, id) || Error(id, code, p) in rest
    {
      AnswersAreForPeer(e, peer, id);
      HearKeepsAnswer(e, peer, outgoing, watched, Error(id, code, p));
    }
    assert Sendable(e, peer, outgoing[0]);
    if outgoing[0].Error? {
      ErrorIsForOwn(peer, e, outgoing);
    }
    forall id | id in e.own && e.own[id].expired
      ensures Forgotten(later, rest, id)
    {
      assert OwnId(e.client, id) && !OwnId(peer.client, id);
      ForgottenHearing(peer, outgoing, watched, id);
    }
  }

  /// Every run

  ghost predicate AllKept(s: System) {
    KeptIfOpen(s.client, s.server, s.toServer) && KeptIfOpen(s.server, s.client, s.toClient)
  }

  /** `e` acts: its own side of the books, and the other's. */
  lemma ActKeepsBoth(e: Endpoint, peer: Endpoint, outgoing: seq<Message>, incoming: seq<Message>, a: Action)
    requires Joined(e, peer, outgoing, incoming) && Enabled(e, incoming, a)
    requires a.Hears? && incoming[0].Request? ==> e.client || e.isSetup
    requires KeptIfOpen(e, peer, outgoing) && KeptIfOpen(peer, e, incoming)
    ensures var t := Act(e, incoming, a);
            && KeptIfOpen(t.endpoint, peer, Outgoing(e, outgoing, t.sent))
            && KeptIfOpen(peer, t.endpoint, Incoming(incoming, a))
  {
    SenderKeeps(e, peer, outgoing, incoming, a);
    if !peer.closed && !peer.closing {
      match a {
        case Hears(watched) => HearKeepsKept(peer, e, incoming, outgoing, watched);
        case _ => QuietKeeps(peer, e, incoming, outgoing, a);
      }
    }
  }

  lemma StepKeepsAll(s: System, step: Step)
    requires Inv(s) && AllKept(s) && CanStep(s, step)
    ensures AllKept(Next(s, step))
  {
    if step.atClient {
      ActKeepsBoth(s.client, s.server, s.toServer, s.toClient, step.action);
    } else {
      ActKeepsBoth(s.server, s.client, s.toClient, s.toServer, step.action);
    }
  }

  lemma {:induction false} RunKeepsAll(steps: seq<Step>)
    requires After(steps).Some?
    ensures AllKept(After(steps).value)
  {
    if steps != [] {
      var before := steps[..|steps| - 1];
      RunKeepsInv(before);
      RunKeepsAll(before);
      StepKeepsAll(After(before).value, steps[|steps| - 1]);
    }
  }

  /** Nothing is lost: on every run, and at either end while its connection is open, each request it has made has been
      handed to the peer as made or is under way; each answer it has given, with a response or an error, has found its
      request resolved or is under way. */
  lemma NothingIsLost(steps: seq<Step>, atClient: bool)
    requires After(steps).Some?
    requires var e := Local(After(steps).value, atClient); !e.closed && !e.closing
    ensures var s := After(steps).value;
            var (e, peer, channel) := (Local(s, atClient), Local(s, !atClient), Outbound(s, atClient));
            && (forall id | id in e.asked ::
                  if id in peer.served then peer.served[id] == e.asked[id] else Request(id, e.asked[id]) in channel)
            && (forall id, p | (id, p) in e.answered ::
                  (id in peer.own && peer.own[id].log != []) || Response(id, p) in channel)
            && (forall id, code, p | (id, code, p) in e.refused ::
                  (id in peer.own && peer.own[id].log != []) || Error(id, code, p) in channel)
  {
    RunKeepsAll(steps);
    var outgoing, incoming := EndOf(steps, !atClient);
  }

  /** Timeouts reach the peer: once nothing is under way to it, the peer remembers no request of this end that has timed
      out, as long as the connection is open. */
  lemma TimeoutsReachThePeer(steps: seq<Step>, atClient: bool, id: int)
    requires After(steps).Some? && Outbound(After(steps).value, atClient) == []
    requires var e := Local(After(steps).value, atClient);
             !e.closed && !e.closing && id in e.own && e.own[id].expired
    ensures id !in Local(After(steps).value, !atClient).table
  {
    RunKeepsAll(steps);
    var s := After(steps).value;
    assert Forgotten(Local(s, !atClient), Outbound(s, atClient), id);
    assert forall i: nat :: !CancelComing(Outbound(s, atClient), i, id);
  }
}
