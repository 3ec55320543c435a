/**
 * One stream connection as a state machine over both ends: the server's reader, its bounded queue and its writer, the
 * client's loop, and the two byte streams between them. Each end changes its framing on its own.
 */
module NegotiationLinks {
  import opened Wrappers
  import opened CotTimes
  import opened CotEvents
  import opened Negotiations

  datatype Mode = AsXml | AsProto

  /** One message on the wire, in the framing its writer had when it wrote it. */
  datatype Frame = Frame(mode: Mode, event: Message)

  /** One item of the server's queue: an event, or an answer after which the writer changes framing. */
  datatype Outbound = Queued(event: Message) | SwitchToProto(event: Message)

  /** What a connection is opened with. */
  datatype Setup = Setup(policy: Policy, serverVersion: string, queueLen: nat, enabled: bool)

  datatype Link = Link(
    // the server: `uid` is the one drawn for the offer, once the replay is over and the reader starts; `queue` is what
    // is still to be written, of which the writer has taken the first `taken` items off the bounded channel
    server: ServerState,
    uid: Option<string>,
    serverReads: Mode,
    serverWrites: Mode,
    queue: seq<Outbound>,
    taken: nat,
    // the client: `pending` is held back while a request is outstanding, `outbox` waits for the socket
    client: ClientState,
    clientMode: Mode,
    pending: seq<Message>,
    outbox: seq<Message>,
    // the two directions of the socket
    s2c: seq<Frame>,
    c2s: seq<Frame>,
    // what happened: handed over by the application, routed on by the server, written by the server and by the
    // client, and whether any end ever took a frame in the wrong framing
    handed: seq<Message>,
    heard: seq<Message>,
    written: seq<Frame>,
    spoken: seq<Frame>,
    misread: bool)

  datatype Step =
    | Offer(uid: string, now: CotTime)
    | Route(event: Message)
    | Take
    | Write
    | ServerRead(now: CotTime)
    | Hand(event: Message)
    | ClientWrite
    | ClientRead(now: CotTime)
    | GiveUp

  function Opened(setup: Setup): Link {
    Link(ServerStart(setup.policy), None, AsXml, AsXml, [], 0, Waiting, AsXml, [], [], [], [], [], [], [], [], false)
  }

  function Capacity(setup: Setup): nat {
    if setup.queueLen == 0 then 1 else setup.queueLen
  }

  /** How many items the writer takes for one flush. */
  const DRAIN_BURST: nat := 64

  /** Whether the channel is full; what the writer has taken is no longer in it. */
  predicate IsFull(setup: Setup, s: Link) {
    |s.queue| >= Capacity(setup) + s.taken
  }

  /** Queues without waiting; a full queue drops the item, and the senders here do not look. */
  function TrySend(setup: Setup, s: Link, item: Outbound): Link {
    if IsFull(setup, s) then s else s.(queue := s.queue + [item])
  }

  function AfterOffer(setup: Setup, s: Link, uid: string, now: CotTime): Link {
    if s.uid.Some? then s
    else
      var (server, offer) := MakeOffer(s.server, uid, setup.serverVersion, now);
      var t := s.(uid := Some(uid), server := server);
      match offer
      case None => t
      case Some(announcement) => TrySend(setup, t, Queued(announcement))
  }

  function AfterTake(s: Link): Link {
    if s.taken < |s.queue| && s.taken < DRAIN_BURST then s.(taken := s.taken + 1) else s
  }

  /** The writer's mode and the answer that changes it are one step. */
  function AfterWrite(s: Link): Link {
    if s.taken == 0 || s.queue == [] then s
    else
      var frame := Frame(s.serverWrites, s.queue[0].event);
      s.(queue := s.queue[1..], taken := s.taken - 1, s2c := s.s2c + [frame], written := s.written + [frame],
         serverWrites := if s.queue[0].SwitchToProto? then AsProto else s.serverWrites)
  }

  /** The reader switches as soon as the answer is handed to the queue, whether or not the queue took it. */
  function AfterServerRead(setup: Setup, s: Link, now: CotTime): Link {
    if s.uid.None? || s.c2s == [] then s
    else
      var frame := s.c2s[0];
      var t := s.(c2s := s.c2s[1..]);
      if frame.mode != s.serverReads then t.(misread := true)
      else
        var (server, reaction) := OnMessage(s.server, setup.policy, frame.event, now);
        match reaction
        case NotMine => t.(heard := t.heard + [frame.event])
        case Ignored => t
        case Refused(answer) => TrySend(setup, t.(server := server), Queued(answer))
        case Accepted(answer) => TrySend(setup, t.(server := server, serverReads := AsProto), SwitchToProto(answer))
  }

  function AfterHand(s: Link, event: Message): Link {
    var t := s.(handed := s.handed + [event]);
    if IsQuiet(s.client) then t.(pending := t.pending + [event]) else t.(outbox := t.outbox + [event])
  }

  function AfterClientWrite(s: Link): Link {
    if s.outbox == [] then s
    else
      var frame := Frame(s.clientMode, s.outbox[0]);
      s.(outbox := s.outbox[1..], c2s := s.c2s + [frame], spoken := s.spoken + [frame])
  }

  /** Takes on a settled state: the framing, and whatever was held back. */
  function Adopt(s: Link, state: ClientState): Link {
    s.(client := state, clientMode := if state.Proto? then AsProto else s.clientMode,
       outbox := s.outbox + s.pending, pending := [])
  }

  function AfterClientRead(setup: Setup, s: Link, now: CotTime): Link {
    if s.s2c == [] then s
    else
      var frame := s.s2c[0];
      var t := s.(s2c := s.s2c[1..]);
      if frame.mode != s.clientMode then t.(misread := true)
      else if frame.event.cotType == TAKP_V then
        var (client, request) := OnAnnounce(s.client, setup.enabled, frame.event, now);
        var u := t.(client := client);
        match request
        case None => u
        case Some(q) => u.(outbox := u.outbox + [q])
      else if frame.event.cotType == TAKP_R then
        match OnResponse(s.client, frame.event)
        case None => t
        case Some(state) => Adopt(t, state)
      else t
  }

  function AfterGiveUp(s: Link): Link {
    if s.client.Requested? then Adopt(s, Expire(s.client)) else s
  }

  function Next(setup: Setup, s: Link, step: Step): Link {
    match step
    case Offer(uid, now) => AfterOffer(setup, s, uid, now)
    case Route(event) => TrySend(setup, s, Queued(event))
    case Take => AfterTake(s)
    case Write => AfterWrite(s)
    case ServerRead(now) => AfterServerRead(setup, s, now)
    case Hand(event) => AfterHand(s, event)
    case ClientWrite => AfterClientWrite(s)
    case ClientRead(now) => AfterClientRead(setup, s, now)
    case GiveUp => AfterGiveUp(s)
  }

  function Run(setup: Setup, steps: seq<Step>): Link {
    if steps == [] then Opened(setup) else Next(setup, Run(setup, steps[..|steps| - 1]), steps[|steps| - 1])
  }

  /** An application leaves asking to the client it talks through; the server may relay anything at all. */
  predicate IsOrdinary(step: Step) {
    step.Hand? ==> !IsRequest(step.event)
  }

  predicate AllOrdinary(steps: seq<Step>) {
    forall i :: 0 <= i < |steps| ==> IsOrdinary(steps[i])
  }

  // ---- the race ----

  /** Whether the frame the server would read next is a request it grants. */
  predicate Grants(setup: Setup, s: Link) {
    && s.uid.Some? && s.c2s != [] && s.c2s[0].mode == s.serverReads
    && s.server.Offered? && !setup.policy.Refuse? && ParseRequest(s.c2s[0].event) == Some(PROTO_VERSION)
  }

  /**
   * Whether the frame the client would read next is an answer that misleads it: an acceptance its server's framing does
   * not follow, or a refusal after its server granted. Only an answer relayed from somebody else can.
   */
  predicate Misleads(s: Link) {
    && s.client.Requested? && s.s2c != [] && s.s2c[0].mode == s.clientMode
    && match ParseResponse(s.s2c[0].event)
       case None => false
       case Some(accepted) =>
         if accepted then !(s.server.Switched? && s.serverWrites.AsProto? && AllIn(s.s2c[1..], AsProto))
         else s.server.Switched?
  }

  /** A grant nobody can take up, a client giving up on a grant it has not heard yet, or one misled by a stranger. */
  predicate Races(setup: Setup, s: Link, step: Step) {
    match step
    case ServerRead(_) => Grants(setup, s) && (!s.client.Requested? || IsFull(setup, s))
    case GiveUp => s.client.Requested? && s.server.Switched?
    case ClientRead(_) => Misleads(s)
    case _ => false
  }

  predicate RaceFree(setup: Setup, steps: seq<Step>) {
    steps == []
    || (var before := steps[..|steps| - 1];
        RaceFree(setup, before) && !Races(setup, Run(setup, before), steps[|steps| - 1]))
  }

  // ---- the phases of a connection ----

  predicate AllIn(frames: seq<Frame>, mode: Mode) {
    forall i :: 0 <= i < |frames| ==> frames[i].mode == mode
  }

  predicate NoSwitch(queue: seq<Outbound>) {
    forall i :: 0 <= i < |queue| ==> queue[i].Queued?
  }

  predicate NoneAsks(events: seq<Message>) {
    forall i :: 0 <= i < |events| ==> !IsRequest(events[i])
  }

  /** A request on its way up, if there is one, is the last thing the client said. */
  predicate RequestIsLast(s: Link) {
    && (forall i :: 0 <= i < |s.c2s| && IsRequest(s.c2s[i].event) ==> i == |s.c2s| - 1 && s.outbox == [])
    && (forall i :: 0 <= i < |s.outbox| && IsRequest(s.outbox[i]) ==> i == |s.outbox| - 1)
  }

  predicate NoRequests(s: Link) {
    && (forall i :: 0 <= i < |s.c2s| ==> !IsRequest(s.c2s[i].event))
    && (forall i :: 0 <= i < |s.outbox| ==> !IsRequest(s.outbox[i]))
  }

  /** What holds of the client's held-back events in every phase. */
  predicate Holding(s: Link) {
    NoneAsks(s.pending) && (!s.client.Requested? ==> s.pending == [])
  }

  /** Nothing granted: XML everywhere. */
  predicate Before(s: Link) {
    && !s.server.Switched? && !s.client.Proto? && Holding(s)
    && s.serverReads == s.serverWrites == s.clientMode == AsXml
    && AllIn(s.s2c, AsXml) && AllIn(s.c2s, AsXml)
    && NoSwitch(s.queue) && (s.uid.None? ==> !s.server.Offered?)
    && (s.client.Waiting? ==> NoRequests(s))
    && (s.client.Requested? ==> RequestIsLast(s))
  }

  /** The acceptance is item `k` of the server's queue. */
  predicate AcceptanceQueued(s: Link, k: nat) {
    && k < |s.queue| && s.queue[k].SwitchToProto? && IsAcceptance(s.queue[k].event)
    && s.serverWrites == AsXml && AllIn(s.s2c, AsXml)
    && (forall i :: 0 <= i < k ==> s.queue[i].Queued?)
    && (forall i :: k < i < |s.queue| ==> s.queue[i].Queued?)
  }

  /** The acceptance is frame `k` on the wire. */
  predicate AcceptanceInFlight(s: Link, k: nat) {
    && k < |s.s2c| && s.s2c[k].mode == AsXml && IsAcceptance(s.s2c[k].event)
    && s.serverWrites == AsProto && NoSwitch(s.queue)
    && (forall i :: 0 <= i < k ==> s.s2c[i].mode == AsXml)
    && (forall i :: k < i < |s.s2c| ==> s.s2c[i].mode == AsProto)
  }

  ghost predicate AcceptanceOnItsWay(s: Link) {
    (exists k: nat :: AcceptanceQueued(s, k)) || (exists k: nat :: AcceptanceInFlight(s, k))
  }

  /** Granted, and the client, silent since it asked, has the answer coming. */
  ghost predicate During(s: Link) {
    && s.server.Switched? && s.uid.Some? && s.serverReads == AsProto
    && s.client.Requested? && s.clientMode == AsXml && s.c2s == [] && s.outbox == [] && Holding(s)
    && AcceptanceOnItsWay(s)
  }

  /** Both ends switched: protobuf everywhere. */
  predicate After(s: Link) {
    && s.server.Switched? && s.uid.Some? && s.client.Proto? && Holding(s)
    && s.serverReads == s.serverWrites == s.clientMode == AsProto
    && AllIn(s.s2c, AsProto) && AllIn(s.c2s, AsProto) && NoSwitch(s.queue)
  }

  /** The two ends agree. */
  ghost predicate Sound(s: Link) {
    Before(s) || During(s) || After(s)
  }

  // ---- one step from each phase ----

  lemma BeforeOffer(setup: Setup, s: Link, uid: string, now: CotTime)
    requires Before(s)
    ensures Before(AfterOffer(setup, s, uid, now)) && AfterOffer(setup, s, uid, now).misread == s.misread
  {
  }

  lemma BeforeServerSteps(setup: Setup, s: Link, step: Step)
    requires Before(s) && (step.Route? || step.Take? || step.Write?)
    ensures Before(Next(setup, s, step)) && Next(setup, s, step).misread == s.misread
  {
  }

  lemma BeforeClientSteps(setup: Setup, s: Link, step: Step)
    requires Before(s) && IsOrdinary(step) && (step.Hand? || step.ClientWrite? || step.GiveUp?)
    ensures Before(Next(setup, s, step)) && Next(setup, s, step).misread == s.misread
  {
  }

  lemma BeforeAnnouncement(setup: Setup, s: Link, now: CotTime)
    requires Before(s) && s.s2c != [] && s.s2c[0].event.cotType == TAKP_V
    ensures Before(AfterClientRead(setup, s, now)) && AfterClientRead(setup, s, now).misread == s.misread
  {
  }

  lemma BeforeClientRead(setup: Setup, s: Link, now: CotTime)
    requires Before(s) && !Misleads(s)
    ensures Before(AfterClientRead(setup, s, now)) && AfterClientRead(setup, s, now).misread == s.misread
  {
    if s.s2c != [] && s.s2c[0].event.cotType == TAKP_V {
      BeforeAnnouncement(setup, s, now);
    }
  }

  /** The state in which a refusal leaves the link, before the answer is queued. */
  lemma BeforeRefusal(setup: Setup, t: Link, answer: Message)
    requires Before(t)
    ensures Before(TrySend(setup, t, Queued(answer))) && TrySend(setup, t, Queued(answer)).misread == t.misread
  {
  }

  lemma BeforeOtherReads(setup: Setup, s: Link, now: CotTime)
    requires Before(s) && !Grants(setup, s)
    ensures Before(AfterServerRead(setup, s, now)) && AfterServerRead(setup, s, now).misread == s.misread
  {
    if s.uid.Some? && s.c2s != [] {
      var (server, reaction) := OnMessage(s.server, setup.policy, s.c2s[0].event, now);
      var t := s.(c2s := s.c2s[1..], server := server);
      assert Before(t);
      if reaction.Refused? {
        BeforeRefusal(setup, t, reaction.answer);
      } else {
        assert server == s.server && !reaction.Accepted?;
      }
    }
  }

  lemma GrantDecides(setup: Setup, s: Link, now: CotTime)
    requires Before(s) && Grants(setup, s)
    ensures
      var t := AfterServerRead(setup, s, now);
      && t.misread == s.misread && t.server.Switched? && t.client == s.client && t.serverWrites == s.serverWrites
      && (s.client.Requested? && !IsFull(setup, s) ==> During(t))
      && (IsFull(setup, s) ==> t.queue == s.queue)
  {
    var t := AfterServerRead(setup, s, now);
    assert IsRequest(s.c2s[0].event);
    if s.client.Requested? && !IsFull(setup, s) {
      assert AcceptanceQueued(t, |s.queue|);
    }
  }

  lemma DuringWrite(s: Link, k: nat)
    requires During(s) && AcceptanceQueued(s, k)
    ensures During(AfterWrite(s)) && AfterWrite(s).misread == s.misread
  {
    if s.taken == 0 {
    } else if k == 0 {
      assert AcceptanceInFlight(AfterWrite(s), |s.s2c|);
    } else {
      assert AcceptanceQueued(AfterWrite(s), k - 1);
    }
  }

  lemma DuringQueueing(setup: Setup, s: Link, k: nat, event: Message)
    requires During(s) && AcceptanceQueued(s, k)
    ensures
      var t := TrySend(setup, s, Queued(event));
      During(t) && t.misread == s.misread
  {
    assert AcceptanceQueued(TrySend(setup, s, Queued(event)), k);
  }

  lemma DuringQueuedRead(setup: Setup, s: Link, k: nat, now: CotTime)
    requires During(s) && AcceptanceQueued(s, k) && !Misleads(s)
    ensures During(AfterClientRead(setup, s, now)) && AfterClientRead(setup, s, now).misread == s.misread
  {
    assert AcceptanceQueued(AfterClientRead(setup, s, now), k);
  }

  lemma DuringQueued(setup: Setup, s: Link, k: nat, step: Step)
    requires During(s) && AcceptanceQueued(s, k) && IsOrdinary(step) && !Races(setup, s, step)
    ensures During(Next(setup, s, step)) && Next(setup, s, step).misread == s.misread
  {
    if step.Write? {
      DuringWrite(s, k);
    } else if step.Route? {
      DuringQueueing(setup, s, k, step.event);
    } else if step.ClientRead? {
      DuringQueuedRead(setup, s, k, step.now);
    } else {
      assert AcceptanceQueued(Next(setup, s, step), k);
    }
  }

  lemma DuringRead(setup: Setup, s: Link, k: nat, now: CotTime)
    requires During(s) && AcceptanceInFlight(s, k) && !Misleads(s)
    ensures
      var t := AfterClientRead(setup, s, now);
      t.misread == s.misread && if k == 0 then After(t) else During(t)
  {
    if k > 0 {
      assert s.s2c[1..][k - 1] == s.s2c[k];
      assert AcceptanceInFlight(AfterClientRead(setup, s, now), k - 1);
    }
  }

  lemma DuringInFlight(setup: Setup, s: Link, k: nat, step: Step)
    requires During(s) && AcceptanceInFlight(s, k) && IsOrdinary(step) && !Races(setup, s, step)
    ensures
      var t := Next(setup, s, step);
      t.misread == s.misread && if step.ClientRead? && k == 0 then After(t) else During(t)
  {
    if step.ClientRead? {
      DuringRead(setup, s, k, step.now);
    } else {
      assert AcceptanceInFlight(Next(setup, s, step), k);
    }
  }

  lemma DuringStep(setup: Setup, s: Link, step: Step)
    requires During(s) && IsOrdinary(step) && !Races(setup, s, step)
    ensures
      var t := Next(setup, s, step);
      t.misread == s.misread && (During(t) || After(t))
  {
    if k: nat :| AcceptanceQueued(s, k) {
      DuringQueued(setup, s, k, step);
    } else {
      var k: nat :| AcceptanceInFlight(s, k);
      DuringInFlight(setup, s, k, step);
    }
  }

  lemma AfterStep(setup: Setup, s: Link, step: Step)
    requires After(s) && IsOrdinary(step)
    ensures After(Next(setup, s, step)) && Next(setup, s, step).misread == s.misread
    ensures !Races(setup, s, step)
  {
  }

  lemma BeforeStep(setup: Setup, s: Link, step: Step)
    requires Before(s) && IsOrdinary(step) && !Races(setup, s, step)
    ensures Sound(Next(setup, s, step)) && Next(setup, s, step).misread == s.misread
  {
    match step
    case Offer(uid, now) => BeforeOffer(setup, s, uid, now);
    case ServerRead(now) =>
      if Grants(setup, s) { GrantDecides(setup, s, now); } else { BeforeOtherReads(setup, s, now); }
    case ClientRead(now) => BeforeClientRead(setup, s, now);
    case Hand(_) => BeforeClientSteps(setup, s, step);
    case ClientWrite => BeforeClientSteps(setup, s, step);
    case GiveUp => BeforeClientSteps(setup, s, step);
    case Route(_) => BeforeServerSteps(setup, s, step);
    case Take => BeforeServerSteps(setup, s, step);
    case Write => BeforeServerSteps(setup, s, step);
  }

  // ---- what a race leaves ----

  lemma UselessGrant(setup: Setup, s: Link, now: CotTime)
    requires Before(s) && Races(setup, s, ServerRead(now))
    ensures !Sound(AfterServerRead(setup, s, now)) && AfterServerRead(setup, s, now).misread == s.misread
  {
    GrantDecides(setup, s, now);
  }

  lemma MisledClient(setup: Setup, s: Link, now: CotTime)
    requires (Before(s) || During(s)) && Misleads(s)
    ensures !Sound(AfterClientRead(setup, s, now)) && AfterClientRead(setup, s, now).misread == s.misread
  {
  }

  lemma HastyClient(s: Link)
    requires During(s)
    ensures !Sound(AfterGiveUp(s)) && AfterGiveUp(s).misread == s.misread
  {
  }

  /** From agreement, one step misreads nothing, and it keeps agreement exactly when it is not a race. */
  lemma OneStep(setup: Setup, s: Link, step: Step)
    requires Sound(s) && IsOrdinary(step)
    ensures Next(setup, s, step).misread == s.misread
    ensures Sound(Next(setup, s, step)) <==> !Races(setup, s, step)
  {
    if After(s) {
      AfterStep(setup, s, step);
    } else if !Races(setup, s, step) {
      if Before(s) { BeforeStep(setup, s, step); } else { DuringStep(setup, s, step); }
    } else if step.ServerRead? {
      UselessGrant(setup, s, step.now);
    } else if step.ClientRead? {
      MisledClient(setup, s, step.now);
    } else {
      HastyClient(s);
    }
  }
}
