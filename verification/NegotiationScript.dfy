/** What the two ends say to each other over a run, races included. */
module NegotiationScripts {
  import opened Wrappers
  import opened CotTimes
  import opened CotEvents
  import opened Negotiations
  import opened NegotiationLinks
  import opened NegotiationRuns
  import opened NegotiationRaces

  // ---- the server's writer changes framing once, at its answer ----

  predicate HasAcceptance(frames: seq<Frame>) {
    exists i :: 0 <= i < |frames| && IsAcceptance(frames[i].event)
  }

  predicate WritesWell(s: Link) {
    && (forall i :: 0 <= i < |s.queue| ==> (s.queue[i].SwitchToProto? <==> IsAcceptance(s.queue[i].event)))
    && (s.serverWrites.AsProto? <==> HasAcceptance(s.written))
    && (forall j :: 0 <= j < |s.written| ==> (s.written[j].mode.AsProto? <==> HasAcceptance(s.written[..j])))
  }

  lemma WriteWritesWell(s: Link)
    requires WritesWell(s)
    ensures WritesWell(AfterWrite(s))
  {
    if s.taken > 0 && s.queue != [] {
      var t := AfterWrite(s);
      var n := |s.written|;
      assert t.written[n].event == s.queue[0].event;
      forall j | 0 <= j < |t.written| ensures t.written[j].mode.AsProto? <==> HasAcceptance(t.written[..j]) {
        assert t.written[..j] == s.written[..j];
        assert s.written[..n] == s.written;
      }
      if HasAcceptance(s.written) {
        var i :| 0 <= i < n && IsAcceptance(s.written[i].event);
        assert IsAcceptance(t.written[i].event);
      }
    }
  }

  lemma StepWritesWell(setup: Setup, s: Link, step: Step)
    requires WritesWell(s) && RelaysNoAnswer(step)
    ensures WritesWell(Next(setup, s, step))
  {
    match step
    case Offer(uid, now) =>
    case Route(event) =>
    case Take =>
    case Write => WriteWritesWell(s);
    case ServerRead(now) => ReadWritesWell(setup, s, now);
    case Hand(_) =>
    case ClientWrite =>
    case ClientRead(now) => ReadingSaysNothing(setup, s, now);
    case GiveUp =>
  }

  lemma ReadingSaysNothing(setup: Setup, s: Link, now: CotTime)
    ensures
      var t := AfterClientRead(setup, s, now);
      t.queue == s.queue && t.written == s.written && t.serverWrites == s.serverWrites
  {
  }

  lemma QueueingWritesWell(setup: Setup, s: Link, item: Outbound)
    requires WritesWell(s) && (item.SwitchToProto? <==> IsAcceptance(item.event))
    ensures WritesWell(TrySend(setup, s, item))
  {
  }

  lemma ReadWritesWell(setup: Setup, s: Link, now: CotTime)
    requires WritesWell(s)
    ensures WritesWell(AfterServerRead(setup, s, now))
  {
    if s.uid.Some? && s.c2s != [] {
      var (server, reaction) := OnMessage(s.server, setup.policy, s.c2s[0].event, now);
      var t := s.(c2s := s.c2s[1..], server := server);
      assert WritesWell(t);
      if reaction.Accepted? {
        QueueingWritesWell(setup, t.(serverReads := AsProto), SwitchToProto(reaction.answer));
      } else if reaction.Refused? {
        QueueingWritesWell(setup, t, Queued(reaction.answer));
      }
    }
  }

  /**
   * No XML after the acceptance and no protobuf before it, whatever happens short of a relayed answer: a frame is
   * protobuf exactly when an acceptance was written before it.
   */
  lemma {:induction false} OneSwitchAtTheAcceptance(setup: Setup, steps: seq<Step>)
    requires NoAnswersRelayed(steps)
    ensures
      var written := Run(setup, steps).written;
      forall j :: 0 <= j < |written| ==> (written[j].mode.AsProto? <==> HasAcceptance(written[..j]))
    ensures WritesWell(Run(setup, steps))
  {
    if steps != [] {
      OneSwitchAtTheAcceptance(setup, steps[..|steps| - 1]);
      StepWritesWell(setup, Run(setup, steps[..|steps| - 1]), steps[|steps| - 1]);
    }
  }

  // ---- one offer, one request, one answer, all on one uid ----

  /** A step in which nobody but the two ends has a part in the negotiation. */
  predicate IsUndisturbed(step: Step) {
    match step
    case Route(event) => !IsNegotiation(event)
    case Hand(event) => !IsNegotiation(event)
    case _ => true
  }

  predicate AllUndisturbed(steps: seq<Step>) {
    forall i :: 0 <= i < |steps| ==> IsUndisturbed(steps[i])
  }

  predicate AllPlain(events: seq<Message>) {
    forall i :: 0 <= i < |events| ==> !IsNegotiation(events[i])
  }

  /** The negotiation messages of `events`, in order. */
  function Control(events: seq<Message>): seq<Message> {
    if events == [] then []
    else
      var last := events[|events| - 1];
      Control(events[..|events| - 1]) + if IsNegotiation(last) then [last] else []
  }

  lemma ControlSnoc(events: seq<Message>, event: Message)
    ensures Control(events + [event]) == Control(events) + if IsNegotiation(event) then [event] else []
  {
    assert (events + [event])[..|events|] == events;
  }

  lemma {:induction false} ControlIgnoresPlain(events: seq<Message>, plain: seq<Message>)
    requires AllPlain(plain)
    ensures Control(events + plain) == Control(events)
  {
    if plain == [] {
      assert events + plain == events;
    } else {
      var front := plain[..|plain| - 1];
      ControlIgnoresPlain(events, front);
      ControlSnoc(events + front, plain[|plain| - 1]);
      assert events + plain == (events + front) + [plain[|plain| - 1]];
    }
  }

  lemma {:induction false} ControlHolds(events: seq<Message>, i: nat)
    requires i < |events| && IsNegotiation(events[i])
    ensures events[i] in Control(events)
  {
    if i < |events| - 1 {
      ControlHolds(events[..|events| - 1], i);
    }
  }

  function ItemEvents(queue: seq<Outbound>): (r: seq<Message>)
    ensures |r| == |queue| && forall i :: 0 <= i < |r| ==> r[i] == queue[i].event
  {
    seq(|queue|, i requires 0 <= i < |queue| => queue[i].event)
  }

  /** Everything the server has queued so far, written or not. */
  function ServerLine(s: Link): seq<Message> { Events(s.written) + ItemEvents(s.queue) }

  /** Everything the client has queued so far, written or not. */
  function ClientLine(s: Link): seq<Message> { Events(s.spoken) + s.outbox }

  predicate IsSuffix<T(==)>(a: seq<T>, b: seq<T>) {
    |a| <= |b| && a == b[|b| - |a|..]
  }

  /** The server's part: at most its offer and then its answer, on the uid it drew. */
  predicate ServerScript(s: Link) {
    var said := Control(ServerLine(s));
    && |said| <= 2
    && (|said| >= 1 ==> s.uid.Some? && said[0].cotType == TAKP_V && said[0].uid == s.uid.value)
    && (|said| == 2 ==> said[1].cotType == TAKP_R && said[1].uid == s.uid.value)
    && (s.uid.None? ==> !s.server.Offered?)
    && (s.server.Offered? ==> |said| <= 1 && s.uid == Some(s.server.uid))
  }

  /** The client's part: at most one request, after an offer and on its uid. */
  predicate ClientScript(s: Link) {
    var asked := Control(ClientLine(s));
    && |asked| <= 1
    && (|asked| == 1 ==> IsRequest(asked[0]) && s.uid == Some(asked[0].uid) && Control(ServerLine(s)) != []
                         && !s.client.Waiting?)
    && (s.client.Requested? ==> ClientLine(s) != [] && IsRequest(ClientLine(s)[|ClientLine(s)| - 1]))
  }

  predicate Script(s: Link) {
    && IsSuffix(s.s2c, s.written) && IsSuffix(s.c2s, s.spoken)
    && AllPlain(s.pending) && (!s.client.Requested? ==> s.pending == [])
    && ServerScript(s) && ClientScript(s)
  }

  lemma QueueingAppends(setup: Setup, s: Link, item: Outbound)
    ensures
      var t := TrySend(setup, s, item);
      ServerLine(t) == if IsFull(setup, s) then ServerLine(s) else ServerLine(s) + [item.event]
  {
    assert ItemEvents(s.queue + [item]) == ItemEvents(s.queue) + [item.event];
  }

  lemma OfferFollowsTheScript(setup: Setup, s: Link, uid: string, now: CotTime)
    requires Script(s)
    ensures Script(AfterOffer(setup, s, uid, now))
  {
    if s.uid.None? {
      var (server, offer) := MakeOffer(s.server, uid, setup.serverVersion, now);
      if offer.Some? {
        QueueingAppends(setup, s.(uid := Some(uid), server := server), Queued(offer.value));
        ControlSnoc(ServerLine(s), offer.value);
      }
    }
  }

  lemma RouteFollowsTheScript(setup: Setup, s: Link, event: Message)
    requires Script(s) && !IsNegotiation(event)
    ensures Script(TrySend(setup, s, Queued(event)))
  {
    QueueingAppends(setup, s, Queued(event));
    ControlSnoc(ServerLine(s), event);
  }

  lemma SuffixGrows<T>(a: seq<T>, b: seq<T>, x: T)
    requires IsSuffix(a, b)
    ensures IsSuffix(a + [x], b + [x]) && (a != [] ==> IsSuffix(a[1..], b))
  {
  }

  lemma WritingKeepsTheLine(s: Link)
    ensures ServerLine(AfterWrite(s)) == ServerLine(s)
  {
    if s.taken > 0 && s.queue != [] {
      var frame := Frame(s.serverWrites, s.queue[0].event);
      assert Events(s.written + [frame]) == Events(s.written) + [frame.event];
      assert ItemEvents(s.queue) == [frame.event] + ItemEvents(s.queue[1..]);
    }
  }

  lemma WriteFollowsTheScript(s: Link)
    requires Script(s)
    ensures Script(AfterWrite(s))
  {
    if s.taken > 0 && s.queue != [] {
      WritingKeepsTheLine(s);
      SuffixGrows(s.s2c, s.written, Frame(s.serverWrites, s.queue[0].event));
    }
  }

  /** The script is about what has been said, and what is in flight is the end of it. */
  lemma SayingNothing(s: Link, t: Link)
    requires Script(s) && t.client == s.client && t.server == s.server && t.uid == s.uid && t.pending == s.pending
    requires ServerLine(t) == ServerLine(s) && ClientLine(t) == ClientLine(s)
    requires IsSuffix(t.s2c, t.written) && IsSuffix(t.c2s, t.spoken)
    ensures Script(t)
  {
  }

  lemma TakingUp(s: Link, heard: seq<Message>, misread: bool)
    requires Script(s) && s.c2s != []
    ensures Script(s.(c2s := s.c2s[1..], heard := heard, misread := misread))
  {
    SuffixGrows(s.c2s, s.spoken, s.c2s[0]);
    SayingNothing(s, s.(c2s := s.c2s[1..], heard := heard, misread := misread));
  }

  lemma TakingDown(s: Link, misread: bool)
    requires Script(s) && s.s2c != []
    ensures Script(s.(s2c := s.s2c[1..], misread := misread))
  {
    SuffixGrows(s.s2c, s.written, s.s2c[0]);
    SayingNothing(s, s.(s2c := s.s2c[1..], misread := misread));
  }

  lemma AnswerFollowsTheScript(setup: Setup, s: Link, server: ServerState, reading: Mode, item: Outbound)
    requires Script(s) && s.server.Offered? && Control(ClientLine(s)) != []
    requires server.Switched? || server.Plain?
    requires item.event.cotType == TAKP_R && item.event.uid == s.server.uid
    ensures Script(TrySend(setup, s.(server := server, serverReads := reading), item))
  {
    QueueingAppends(setup, s.(server := server, serverReads := reading), item);
    ControlSnoc(ServerLine(s), item.event);
  }

  lemma RequestWasAsked(s: Link)
    requires Script(s) && s.c2s != [] && IsRequest(s.c2s[0].event)
    ensures Control(ClientLine(s)) != []
  {
    var k := |s.spoken| - |s.c2s|;
    assert ClientLine(s)[k] == s.c2s[0].event;
    ControlHolds(ClientLine(s), k);
  }

  lemma ServerReadFollowsTheScript(setup: Setup, s: Link, now: CotTime)
    requires Script(s)
    ensures Script(AfterServerRead(setup, s, now))
  {
    if s.uid.Some? && s.c2s != [] {
      var event := s.c2s[0].event;
      TakingUp(s, s.heard, true);
      TakingUp(s, s.heard + [event], s.misread);
      TakingUp(s, s.heard, s.misread);
      if s.c2s[0].mode == s.serverReads && IsRequest(event) {
        RequestFollowsUp(setup, s, now);
      }
    }
  }

  lemma RequestFollowsUp(setup: Setup, s: Link, now: CotTime)
    requires Script(s) && s.uid.Some? && s.c2s != [] && s.c2s[0].mode == s.serverReads && IsRequest(s.c2s[0].event)
    requires Script(s.(c2s := s.c2s[1..]))
    ensures Script(AfterServerRead(setup, s, now))
  {
    var (server, reaction) := OnMessage(s.server, setup.policy, s.c2s[0].event, now);
    var t := s.(c2s := s.c2s[1..]);
    RequestWasAsked(s);
    if reaction.Refused? {
      AnswerFollowsTheScript(setup, t, server, s.serverReads, Queued(reaction.answer));
    } else if reaction.Accepted? {
      AnswerFollowsTheScript(setup, t, server, AsProto, SwitchToProto(reaction.answer));
    }
  }

  lemma HoldingBack(s: Link, event: Message)
    requires Script(s) && s.client.Requested? && !IsNegotiation(event)
    ensures Script(s.(handed := s.handed + [event], pending := s.pending + [event]))
  {
    assert ClientLine(s.(handed := s.handed + [event], pending := s.pending + [event])) == ClientLine(s);
  }

  lemma SpeakingUp(s: Link, event: Message)
    requires Script(s) && !s.client.Requested? && !IsNegotiation(event)
    ensures Script(s.(handed := s.handed + [event], outbox := s.outbox + [event]))
  {
    assert ClientLine(s.(handed := s.handed + [event], outbox := s.outbox + [event])) == ClientLine(s) + [event];
    ControlSnoc(ClientLine(s), event);
  }

  lemma HandFollowsTheScript(s: Link, event: Message)
    requires Script(s) && !IsNegotiation(event)
    ensures Script(AfterHand(s, event))
  {
    if IsQuiet(s.client) {
      HoldingBack(s, event);
    } else {
      SpeakingUp(s, event);
    }
  }

  lemma ClientWriteFollowsTheScript(s: Link)
    requires Script(s)
    ensures Script(AfterClientWrite(s))
  {
    if s.outbox != [] {
      var frame := Frame(s.clientMode, s.outbox[0]);
      assert Events(s.spoken + [frame]) == Events(s.spoken) + [frame.event];
      assert s.outbox == [frame.event] + s.outbox[1..];
      assert ClientLine(AfterClientWrite(s)) == ClientLine(s);
    }
  }

  lemma AdoptFollowsTheScript(s: Link, state: ClientState)
    requires Script(s) && (state.Proto? || state.Xml?)
    ensures Script(Adopt(s, state))
  {
    assert ClientLine(Adopt(s, state)) == ClientLine(s) + s.pending;
    ControlIgnoresPlain(ClientLine(s), s.pending);
  }

  lemma RequestFollowsTheScript(s: Link, request: Message)
    requires Script(s) && s.client.Waiting? && IsRequest(request)
    requires Control(ServerLine(s)) != [] && s.uid == Some(request.uid)
    ensures Script(s.(client := Requested, outbox := s.outbox + [request]))
  {
    assert ClientLine(s.(client := Requested, outbox := s.outbox + [request])) == ClientLine(s) + [request];
    ControlSnoc(ClientLine(s), request);
  }

  lemma OfferWasMade(s: Link)
    requires Script(s) && s.s2c != [] && s.s2c[0].event.cotType == TAKP_V
    ensures Control(ServerLine(s)) != [] && s.uid == Some(s.s2c[0].event.uid)
  {
    var k := |s.written| - |s.s2c|;
    assert ServerLine(s)[k] == s.s2c[0].event;
    ControlHolds(ServerLine(s), k);
  }

  lemma ClientReadFollowsTheScript(setup: Setup, s: Link, now: CotTime)
    requires Script(s)
    ensures Script(AfterClientRead(setup, s, now))
  {
    if s.s2c != [] {
      var event := s.s2c[0].event;
      var t := s.(s2c := s.s2c[1..]);
      TakingDown(s, true);
      TakingDown(s, s.misread);
      if s.s2c[0].mode != s.clientMode {
      } else if event.cotType == TAKP_V {
        AnnouncementFollowsTheScript(setup, s, t, now);
      } else if event.cotType == TAKP_R && OnResponse(s.client, event).Some? {
        AdoptFollowsTheScript(t, OnResponse(s.client, event).value);
      }
    }
  }

  lemma AnnouncementFollowsTheScript(setup: Setup, s: Link, t: Link, now: CotTime)
    requires Script(s) && Script(t) && s.s2c != [] && t == s.(s2c := s.s2c[1..])
    requires s.s2c[0].mode == s.clientMode && s.s2c[0].event.cotType == TAKP_V
    ensures Script(AfterClientRead(setup, s, now))
  {
    var (client, request) := OnAnnounce(s.client, setup.enabled, s.s2c[0].event, now);
    if request.Some? {
      OfferWasMade(s);
      RequestFollowsTheScript(t, request.value);
    } else {
      assert client == s.client || (client == ClientState.Xml && s.client.Waiting?);
    }
  }

  lemma StepFollowsTheScript(setup: Setup, s: Link, step: Step)
    requires Script(s) && IsUndisturbed(step)
    ensures Script(Next(setup, s, step))
  {
    match step
    case Offer(uid, now) => OfferFollowsTheScript(setup, s, uid, now);
    case Route(event) => RouteFollowsTheScript(setup, s, event);
    case Take =>
    case Write => WriteFollowsTheScript(s);
    case ServerRead(now) => ServerReadFollowsTheScript(setup, s, now);
    case Hand(event) => HandFollowsTheScript(s, event);
    case ClientWrite => ClientWriteFollowsTheScript(s);
    case ClientRead(now) => ClientReadFollowsTheScript(setup, s, now);
    case GiveUp => if s.client.Requested? { AdoptFollowsTheScript(s, Expire(s.client)); }
  }

  /**
   * Over any run nobody else takes part in: the server says at most its offer and then one answer, the client asks at
   * most once, after the offer, all on the uid the server drew; and while its request is outstanding the request is the
   * last thing the client said.
   */
  lemma {:induction false} TheExchangeFollowsTheScript(setup: Setup, steps: seq<Step>)
    requires AllUndisturbed(steps)
    ensures Script(Run(setup, steps))
  {
    if steps != [] {
      TheExchangeFollowsTheScript(setup, steps[..|steps| - 1]);
      StepFollowsTheScript(setup, Run(setup, steps[..|steps| - 1]), steps[|steps| - 1]);
    }
  }
}
