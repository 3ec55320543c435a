/**
 * What a race does to a connection whose server relays nobody else's answers: it is split for good. And four runs:
 * one in which both ends switch, one in which both stay, and one for each way agreement is lost without a timeout.
 */
module NegotiationRaces {
  import opened Wrappers
  import opened CotTimes
  import opened CotEvents
  import opened Negotiations
  import opened NegotiationLinks
  import opened NegotiationRuns

  /** An ordinary step in which the server relays no answer of somebody else's. */
  predicate RelaysNoAnswer(step: Step) {
    IsOrdinary(step) && (step.Route? ==> !IsResponse(step.event))
  }

  predicate NoAnswersRelayed(steps: seq<Step>) {
    forall i :: 0 <= i < |steps| ==> RelaysNoAnswer(steps[i])
  }

  // ---- without relayed answers no client is misled ----

  predicate IsRefusal(event: Message) {
    ParseResponse(event) == Some(false)
  }

  predicate ProtoAfter(frames: seq<Frame>, i: nat) {
    forall j :: i < j < |frames| ==> frames[j].mode.AsProto?
  }

  /** An acceptance stands where the writer changes framing, and a refusal is the server's last word. */
  predicate Honest(s: Link) {
    && (forall i :: 0 <= i < |s.queue| && IsAcceptance(s.queue[i].event) ==>
          s.queue[i].SwitchToProto? && s.server.Switched?)
    && (forall i :: 0 <= i < |s.s2c| && IsAcceptance(s.s2c[i].event) ==>
          s.server.Switched? && s.serverWrites.AsProto? && ProtoAfter(s.s2c, i))
    && (forall i :: 0 <= i < |s.queue| && IsRefusal(s.queue[i].event) ==> s.server.Plain? && s.uid.Some?)
    && (forall i :: 0 <= i < |s.s2c| && IsRefusal(s.s2c[i].event) ==> s.server.Plain? && s.uid.Some?)
  }

  lemma HonestNeverMisleads(s: Link)
    requires Honest(s)
    ensures !Misleads(s)
  {
  }

  lemma HonestAfterQueueing(setup: Setup, s: Link, event: Message)
    requires Honest(s) && !IsResponse(event)
    ensures Honest(TrySend(setup, s, Queued(event)))
  {
  }

  lemma HonestAfterOffer(setup: Setup, s: Link, uid: string, now: CotTime)
    requires Honest(s)
    ensures Honest(AfterOffer(setup, s, uid, now))
  {
    if s.uid.None? {
      var (server, offer) := MakeOffer(s.server, uid, setup.serverVersion, now);
      if offer.Some? {
        HonestAfterQueueing(setup, s.(uid := Some(uid), server := server), offer.value);
      }
    }
  }

  lemma HonestAfterWrite(s: Link)
    requires Honest(s)
    ensures Honest(AfterWrite(s))
  {
  }

  lemma HonestAfterAnswer(setup: Setup, s: Link, server: ServerState, framing: Mode, item: Outbound)
    requires Honest(s) && s.server.Offered? && s.uid.Some?
    requires if item.SwitchToProto? then server.Switched? && IsAcceptance(item.event)
             else server.Plain? && IsRefusal(item.event)
    ensures Honest(TrySend(setup, s.(server := server, serverReads := framing), item))
  {
  }

  lemma HonestAfterServerRead(setup: Setup, s: Link, now: CotTime)
    requires Honest(s)
    ensures Honest(AfterServerRead(setup, s, now))
  {
    if s.uid.Some? && s.c2s != [] {
      var (server, reaction) := OnMessage(s.server, setup.policy, s.c2s[0].event, now);
      var t := s.(c2s := s.c2s[1..]);
      assert Honest(t);
      if reaction.Accepted? {
        HonestAfterAnswer(setup, t, server, AsProto, SwitchToProto(reaction.answer));
      } else if reaction.Refused? {
        HonestAfterAnswer(setup, t, server, t.serverReads, Queued(reaction.answer));
      }
    }
  }

  lemma HonestWithoutTheFirst(s: Link)
    requires Honest(s) && s.s2c != []
    ensures Honest(s.(s2c := s.s2c[1..]))
  {
  }

  /** What reading leaves alone, and that it takes the first frame. */
  lemma ReadingChangesTheClient(setup: Setup, s: Link, now: CotTime)
    requires s.s2c != []
    ensures
      var t := AfterClientRead(setup, s, now);
      && t.s2c == s.s2c[1..] && t.queue == s.queue && t.uid == s.uid
      && t.server == s.server && t.serverWrites == s.serverWrites
  {
  }

  lemma HonestAfterClientRead(setup: Setup, s: Link, now: CotTime)
    requires Honest(s)
    ensures Honest(AfterClientRead(setup, s, now))
  {
    if s.s2c != [] {
      HonestWithoutTheFirst(s);
      ReadingChangesTheClient(setup, s, now);
    }
  }

  lemma HonestStep(setup: Setup, s: Link, step: Step)
    requires Honest(s) && RelaysNoAnswer(step)
    ensures Honest(Next(setup, s, step))
  {
    match step
    case Offer(uid, now) => HonestAfterOffer(setup, s, uid, now);
    case Route(event) => HonestAfterQueueing(setup, s, event);
    case Write => HonestAfterWrite(s);
    case ServerRead(now) => HonestAfterServerRead(setup, s, now);
    case ClientRead(now) => HonestAfterClientRead(setup, s, now);
    case Take =>
    case Hand(_) =>
    case ClientWrite =>
    case GiveUp =>
  }

  lemma {:induction false} HonestRun(setup: Setup, steps: seq<Step>)
    requires NoAnswersRelayed(steps)
    ensures Honest(Run(setup, steps)) && AllOrdinary(steps)
  {
    if steps != [] {
      HonestRun(setup, steps[..|steps| - 1]);
      HonestStep(setup, Run(setup, steps[..|steps| - 1]), steps[|steps| - 1]);
    }
  }

  lemma {:induction false} HonestAhead(setup: Setup, s: Link, n: nat, now: CotTime)
    requires Honest(s) && n <= |s.s2c|
    ensures Honest(ReadAhead(setup, s, n, now))
  {
    if n > 0 {
      HonestAhead(setup, s, n - 1, now);
      HonestAfterClientRead(setup, ReadAhead(setup, s, n - 1, now), now);
    }
  }

  /** Every frame in flight, in both directions, is in the framing its reader will be reading when it gets there. */
  lemma EveryFrameInFlightFits(setup: Setup, steps: seq<Step>, i: nat, now: CotTime)
    requires NoAnswersRelayed(steps) && RaceFree(setup, steps)
    ensures
      var s := Run(setup, steps);
      && (i < |s.s2c| ==> s.s2c[i].mode == ReadAhead(setup, s, i, now).clientMode)
      && (i < |s.c2s| ==> s.c2s[i].mode == s.serverReads)
  {
    HonestRun(setup, steps);
    var s := Run(setup, steps);
    if i < |s.s2c| {
      forall j | 0 <= j < i ensures !Misleads(ReadAhead(setup, s, j, now)) {
        HonestAhead(setup, s, j, now);
        HonestNeverMisleads(ReadAhead(setup, s, j, now));
      }
    }
    InFlightFramesFit(setup, steps, i, now);
  }

  // ---- a race splits the connection ----

  /**
   * The server reads protobuf, and its client writes XML and will go on doing so: it has settled on XML, or it waits for
   * an acceptance that is not coming.
   */
  predicate Split(s: Link) {
    && s.server.Switched? && s.uid.Some? && s.serverReads.AsProto?
    && s.clientMode.AsXml? && AllIn(s.c2s, AsXml)
    && (s.client.Xml? || (s.client.Requested? && NoAcceptanceComes(s)))
  }

  predicate NoAcceptanceComes(s: Link) {
    && s.serverWrites.AsXml?
    && (forall i :: 0 <= i < |s.queue| ==> s.queue[i].Queued? && !IsAcceptance(s.queue[i].event))
    && (forall i :: 0 <= i < |s.s2c| ==> !IsAcceptance(s.s2c[i].event))
  }

  lemma SplitIsAstray(s: Link)
    requires Split(s)
    ensures Astray(s) && !Sound(s)
  {
  }

  lemma SplitThroughServerRead(setup: Setup, s: Link, now: CotTime)
    requires Split(s)
    ensures Split(AfterServerRead(setup, s, now)) && AfterServerRead(setup, s, now).heard == s.heard
  {
  }

  lemma SplitThroughClientRead(setup: Setup, s: Link, now: CotTime)
    requires Split(s)
    ensures Split(AfterClientRead(setup, s, now)) && AfterClientRead(setup, s, now).heard == s.heard
  {
  }

  lemma SplitStays(setup: Setup, s: Link, step: Step)
    requires Split(s) && RelaysNoAnswer(step)
    ensures Split(Next(setup, s, step)) && Next(setup, s, step).heard == s.heard
  {
    if step.ServerRead? {
      SplitThroughServerRead(setup, s, step.now);
    } else if step.ClientRead? {
      SplitThroughClientRead(setup, s, step.now);
    }
  }

  lemma ARaceSplits(setup: Setup, s: Link, step: Step)
    requires Sound(s) && Honest(s) && RelaysNoAnswer(step) && Races(setup, s, step)
    ensures Split(Next(setup, s, step))
  {
    HonestNeverMisleads(s);
    if step.ServerRead? {
      assert Before(s) && IsRequest(s.c2s[0].event);
      GrantDecides(setup, s, step.now);
    }
  }

  /** Where no answer is relayed the two ends agree exactly until a race, and from the first one on they are split. */
  lemma {:induction false} RacesSplitTheLink(setup: Setup, steps: seq<Step>)
    requires NoAnswersRelayed(steps)
    ensures RaceFree(setup, steps) <==> Sound(Run(setup, steps))
    ensures !RaceFree(setup, steps) <==> Split(Run(setup, steps))
  {
    HonestRun(setup, steps);
    FramingAgreement(setup, steps);
    if steps != [] {
      var before := steps[..|steps| - 1];
      var step := steps[|steps| - 1];
      RacesSplitTheLink(setup, before);
      var s := Run(setup, before);
      if RaceFree(setup, before) && Races(setup, s, step) {
        HonestRun(setup, before);
        ARaceSplits(setup, s, step);
      } else if !RaceFree(setup, before) {
        SplitStays(setup, s, step);
      }
    }
    if Split(Run(setup, steps)) {
      SplitIsAstray(Run(setup, steps));
    }
  }

  /** A split connection stays deaf: whatever happens next, nothing further the client says is ever routed. */
  lemma {:induction false} NothingIsHeardAfterARace(setup: Setup, steps: seq<Step>, more: seq<Step>)
    requires NoAnswersRelayed(steps) && NoAnswersRelayed(more) && !RaceFree(setup, steps)
    ensures Run(setup, steps + more).heard == Run(setup, steps).heard
    ensures Split(Run(setup, steps + more))
  {
    RacesSplitTheLink(setup, steps);
    if more == [] {
      assert steps + more == steps;
    } else {
      var front := more[..|more| - 1];
      NothingIsHeardAfterARace(setup, steps, front);
      assert steps + more == (steps + front) + [more[|more| - 1]];
      RunStep(setup, steps + front, more[|more| - 1]);
      SplitStays(setup, Run(setup, steps + front), more[|more| - 1]);
    }
  }

  lemma ASplitIsFelt(setup: Setup, s: Link, event: Message, now: CotTime)
    requires Split(s)
    ensures AfterServerRead(setup, AfterClientWrite(AfterHand(AfterGiveUp(s), event)), now).misread
  {
    var t := AfterGiveUp(s);
    assert Split(t) && t.client.Xml?;
    var u := AfterClientWrite(AfterHand(t, event));
    assert u.c2s != [] && AllIn(u.c2s, AsXml);
  }

  /** And it is felt: once the client has given up waiting, the next thing it writes reaches the server misread. */
  lemma ARaceIsFelt(setup: Setup, steps: seq<Step>, event: Message, now: CotTime)
    requires NoAnswersRelayed(steps) && !RaceFree(setup, steps) && !IsRequest(event)
    ensures Run(setup, steps + [GiveUp] + [Hand(event)] + [ClientWrite] + [ServerRead(now)]).misread
  {
    RacesSplitTheLink(setup, steps);
    RunStep(setup, steps, GiveUp);
    RunStep(setup, steps + [GiveUp], Hand(event));
    RunStep(setup, steps + [GiveUp] + [Hand(event)], ClientWrite);
    RunStep(setup, steps + [GiveUp] + [Hand(event)] + [ClientWrite], ServerRead(now));
    ASplitIsFelt(setup, Run(setup, steps), event, now);
  }

  // ---- four runs ----

  /** An offer taken up at once. */
  function Asking(uid: string, now: CotTime): seq<Step> {
    Offering(uid, now) + [ClientRead(now)] + [ClientWrite]
  }

  function Offering(uid: string, now: CotTime): seq<Step> {
    [Offer(uid, now)] + [Take] + [Write]
  }

  /** One item all the way to the client. */
  function Delivering(steps: seq<Step>, now: CotTime): seq<Step> {
    steps + [Take] + [Write] + [ClientRead(now)]
  }

  /** The offer is all there is, and on its way. */
  predicate JustOffered(setup: Setup, s: Link, uid: string, now: CotTime) {
    && s.queue == [] && s.taken == 0 && s.uid == Some(uid) && s.server == Offered(uid)
    && s.serverReads == s.serverWrites == s.clientMode == AsXml && !s.misread
    && s.client.Waiting? && s.outbox == [] && s.pending == [] && s.c2s == []
    && s.s2c == [Frame(AsXml, Announce(uid, setup.serverVersion, API_VERSION, now))]
  }

  lemma TheServerOffers(setup: Setup, uid: string, now: CotTime)
    requires !setup.policy.Silent?
    ensures JustOffered(setup, AfterWrite(AfterTake(AfterOffer(setup, Opened(setup), uid, now))), uid, now)
  {
  }

  lemma HasOffered(setup: Setup, uid: string, now: CotTime)
    requires !setup.policy.Silent?
    ensures JustOffered(setup, Run(setup, Offering(uid, now)), uid, now)
  {
    var offered := [Offer(uid, now)];
    assert [] + offered == offered;
    RunStep(setup, [], Offer(uid, now));
    RunStep(setup, offered, Take);
    RunStep(setup, offered + [Take], Write);
    TheServerOffers(setup, uid, now);
  }

  /** The server has offered, and the request has been written and is all there is in flight. */
  predicate JustAsked(s: Link, uid: string, now: CotTime) {
    && s.queue == [] && s.taken == 0 && s.uid == Some(uid) && s.server == Offered(uid)
    && s.serverReads == s.serverWrites == s.clientMode == AsXml && s.s2c == [] && !s.misread
    && s.client.Requested? && s.outbox == [] && s.pending == [] && s.c2s == [Frame(AsXml, Request(uid, PROTO_VERSION, now))]
  }

  lemma TheClientAsks(setup: Setup, s: Link, uid: string, now: CotTime)
    requires JustOffered(setup, s, uid, now) && setup.enabled
    ensures JustAsked(AfterClientWrite(AfterClientRead(setup, s, now)), uid, now)
  {
  }

  lemma HasAsked(setup: Setup, uid: string, now: CotTime)
    requires !setup.policy.Silent? && setup.enabled
    ensures JustAsked(Run(setup, Asking(uid, now)), uid, now)
  {
    HasOffered(setup, uid, now);
    RunStep(setup, Offering(uid, now), ClientRead(now));
    RunStep(setup, Offering(uid, now) + [ClientRead(now)], ClientWrite);
    TheClientAsks(setup, Run(setup, Offering(uid, now)), uid, now);
  }

  /** What an exchange nobody races leaves: both ends switched, nothing in flight, nothing misread. */
  predicate BothSwitched(s: Link) {
    && s.server.Switched? && s.client.Proto? && s.serverReads == s.serverWrites == s.clientMode == AsProto
    && s.queue == [] && s.s2c == [] && s.c2s == [] && s.outbox == [] && s.pending == [] && !s.misread
  }

  lemma SwitchedIsSound(s: Link)
    requires BothSwitched(s) && s.uid.Some?
    ensures Sound(s)
  {
  }

  lemma TheAnswerIsTaken(setup: Setup, s: Link, uid: string, now: CotTime)
    requires JustAsked(s, uid, now) && setup.policy.Accept?
    ensures
      var t := AfterServerRead(setup, s, now);
      |t.queue| == 1 && t.taken == 0 && BothSwitched(AfterClientRead(setup, AfterWrite(AfterTake(t)), now))
      && AfterClientRead(setup, AfterWrite(AfterTake(t)), now).uid == Some(uid)
  {
  }

  /** The run in which nobody comes between. */
  function Agreeing(uid: string, now: CotTime): seq<Step> {
    Delivering(Asking(uid, now) + [ServerRead(now)], now)
  }

  lemma HasSwitched(setup: Setup, uid: string, now: CotTime)
    requires setup.policy.Accept? && setup.enabled
    ensures BothSwitched(Run(setup, Agreeing(uid, now))) && Run(setup, Agreeing(uid, now)).uid == Some(uid)
  {
    var asked := Asking(uid, now);
    HasAsked(setup, uid, now);
    RunStep(setup, asked, ServerRead(now));
    TheAnswerIsTaken(setup, Run(setup, asked), uid, now);
    Delivered(setup, asked + [ServerRead(now)], now);
  }

  /** Offered, asked, granted: with both ends willing and nothing in between, both switch. */
  lemma AWillingPairSwitches(setup: Setup, uid: string, now: CotTime)
    requires setup.policy.Accept? && setup.enabled
    ensures BothSwitched(Run(setup, Agreeing(uid, now))) && RaceFree(setup, Agreeing(uid, now))
  {
    HasSwitched(setup, uid, now);
    SwitchedIsSound(Run(setup, Agreeing(uid, now)));
    FramingAgreement(setup, Agreeing(uid, now));
  }

  /** What a refusal leaves: both ends in XML for good, nothing in flight, nothing misread. */
  predicate BothStayed(s: Link) {
    && s.server.Plain? && s.client.Xml? && s.serverReads == s.serverWrites == s.clientMode == AsXml
    && s.queue == [] && s.s2c == [] && s.c2s == [] && s.outbox == [] && s.pending == [] && !s.misread
  }

  lemma TheRefusalIsTaken(setup: Setup, s: Link, uid: string, now: CotTime)
    requires JustAsked(s, uid, now) && setup.policy.Refuse?
    ensures
      var t := AfterServerRead(setup, s, now);
      && |t.queue| == 1 && t.taken == 0
      && BothStayed(AfterClientRead(setup, AfterWrite(AfterTake(t)), now))
  {
  }

  lemma StayedIsSound(s: Link)
    requires BothStayed(s)
    ensures Sound(s)
  {
  }

  lemma HasStayed(setup: Setup, uid: string, now: CotTime)
    requires setup.policy.Refuse? && setup.enabled
    ensures BothStayed(Run(setup, Agreeing(uid, now)))
  {
    var asked := Asking(uid, now);
    HasAsked(setup, uid, now);
    RunStep(setup, asked, ServerRead(now));
    TheRefusalIsTaken(setup, Run(setup, asked), uid, now);
    Delivered(setup, asked + [ServerRead(now)], now);
  }

  /** A server told to refuse says so, and both stay in XML without a race. */
  lemma ARefusedPairStays(setup: Setup, uid: string, now: CotTime)
    requires setup.policy.Refuse? && setup.enabled
    ensures BothStayed(Run(setup, Agreeing(uid, now))) && RaceFree(setup, Agreeing(uid, now))
  {
    HasStayed(setup, uid, now);
    StayedIsSound(Run(setup, Agreeing(uid, now)));
    FramingAgreement(setup, Agreeing(uid, now));
  }

  lemma TheAnswerIsDropped(setup: Setup, s: Link, uid: string, event: Message, now: CotTime)
    requires JustAsked(s, uid, now) && setup.policy.Accept? && setup.queueLen == 1 && !IsResponse(event)
    ensures
      var t := AfterServerRead(setup, TrySend(setup, s, Queued(event)), now);
      Split(t) && t.client.Requested? && t.queue == [Queued(event)]
  {
  }

  /**
   * The race needs no timeout: with the queue full at the moment the server reads the request, the acceptance is dropped
   * while the reader switches all the same, and the client goes on waiting for an answer nobody will send.
   */
  lemma AFullQueueSplitsTheLink(uid: string, event: Message, now: CotTime)
    requires !IsResponse(event)
    ensures
      var setup := Setup(Accept, "", 1, true);
      var steps := Asking(uid, now) + [Route(event)] + [ServerRead(now)];
      var s := Run(setup, steps);
      && !RaceFree(setup, steps) && Split(s) && s.client.Requested? && s.queue == [Queued(event)]
  {
    var setup := Setup(Accept, "", 1, true);
    HasAsked(setup, uid, now);
    RunStep(setup, Asking(uid, now), Route(event));
    RunStep(setup, Asking(uid, now) + [Route(event)], ServerRead(now));
    TheAnswerIsDropped(setup, Run(setup, Asking(uid, now)), uid, event, now);
    RacesSplitTheLink(setup, Asking(uid, now) + [Route(event)] + [ServerRead(now)]);
  }

  lemma Delivered(setup: Setup, steps: seq<Step>, now: CotTime)
    requires |Run(setup, steps).queue| == 1 && Run(setup, steps).taken == 0
    ensures
      var s := Run(setup, steps);
      Run(setup, Delivering(steps, now)) == AfterClientRead(setup, AfterWrite(AfterTake(s)), now)
  {
    RunStep(setup, steps, Take);
    RunStep(setup, steps + [Take], Write);
    RunStep(setup, steps + [Take] + [Write], ClientRead(now));
  }

  /** The client has taken up protobuf, and the server has not read its request yet. */
  predicate Mistaken(s: Link, uid: string, now: CotTime) {
    && s.client.Proto? && s.clientMode.AsProto? && s.server == Offered(uid) && s.uid == Some(uid)
    && s.serverReads == s.serverWrites == AsXml && s.queue == [] && s.taken == 0 && s.s2c == [] && !s.misread
    && s.c2s == [Frame(AsXml, Request(uid, PROTO_VERSION, now))]
  }

  lemma TheStrangersAnswerIsTaken(setup: Setup, s: Link, uid: string, other: string, now: CotTime)
    requires JustAsked(s, uid, now)
    ensures
      var t := TrySend(setup, s, Queued(Response(other, true, now)));
      && |t.queue| == 1 && t.taken == 0
      && Mistaken(AfterClientRead(setup, AfterWrite(AfterTake(t)), now), uid, now)
  {
  }

  lemma TheServersAnswerIsMisread(setup: Setup, s: Link, uid: string, now: CotTime)
    requires Mistaken(s, uid, now) && setup.policy.Accept?
    ensures
      var t := AfterServerRead(setup, s, now);
      && |t.queue| == 1 && t.taken == 0 && AfterClientRead(setup, AfterWrite(AfterTake(t)), now).misread
  {
  }

  /** The run in which a stranger's acceptance reaches the client first. */
  function Misleading(uid: string, other: string, now: CotTime): seq<Step> {
    Delivering(Asking(uid, now) + [Route(Response(other, true, now))], now)
  }

  lemma HasBeenMisled(setup: Setup, uid: string, other: string, now: CotTime)
    requires setup.policy.Accept? && setup.enabled
    ensures Mistaken(Run(setup, Misleading(uid, other, now)), uid, now)
  {
    var asked := Asking(uid, now);
    var answer := Response(other, true, now);
    HasAsked(setup, uid, now);
    RunStep(setup, asked, Route(answer));
    TheStrangersAnswerIsTaken(setup, Run(setup, asked), uid, other, now);
    Delivered(setup, asked + [Route(answer)], now);
  }

  lemma MistakenIsAstray(s: Link, uid: string, now: CotTime)
    requires Mistaken(s, uid, now)
    ensures Astray(s)
  {
  }

  /** A stranger's acceptance, relayed while the client is waiting for its server's, is taken for it. */
  lemma AStrangersAnswerMisleads(setup: Setup, uid: string, other: string, now: CotTime)
    requires setup.policy.Accept? && setup.enabled
    ensures
      var steps := Misleading(uid, other, now);
      && Mistaken(Run(setup, steps), uid, now) && !RaceFree(setup, steps)
      && Run(setup, Delivering(steps + [ServerRead(now)], now)).misread
  {
    var steps := Misleading(uid, other, now);
    HasBeenMisled(setup, uid, other, now);
    MistakenIsAstray(Run(setup, steps), uid, now);
    FramingAgreement(setup, steps);
    RunStep(setup, steps, ServerRead(now));
    TheServersAnswerIsMisread(setup, Run(setup, steps), uid, now);
    Delivered(setup, steps + [ServerRead(now)], now);
  }
}
