/** TAK Protocol version 1 negotiation: the three messages, and each end's own state machine. */
module Negotiations {
  import opened Wrappers
  import opened CotTimes
  import opened CotEvents

  const TAKP_V := "t-x-takp-v"
  const TAKP_Q := "t-x-takp-q"
  const TAKP_R := "t-x-takp-r"
  const M_G := "m-g"

  type U32 = x: int | 0 <= x < 0x1_0000_0000 witness 0

  const PROTO_VERSION: U32 := 1
  const API_VERSION: U32 := 3
  const VALIDITY: nat := 60_000

  /** The parsed contents of a `<TakControl>` element. */
  datatype TakControl = TakControl(
    supported: seq<U32>,
    serverVersion: Option<string>,
    apiVersion: Option<U32>,
    request: Option<U32>,
    response: Option<bool>)

  const EMPTY_CONTROL := TakControl([], None, None, None, None)

  /** An event, of which only the `<TakControl>` detail matters here. */
  type Message = Event<Option<TakControl>>

  /** What a server offered. */
  datatype Announcement = Announcement(versions: seq<U32>, serverVersion: Option<string>, apiVersion: Option<U32>)

  function Envelope(cotType: string, uid: string, now: CotTime, wall: CotTime): Message {
    WithStaleAfter(WithTime(WithHow(Blank(cotType, uid, None, wall), M_G), now), VALIDITY)
  }

  function Announce(uid: string, serverVersion: string, apiVersion: U32, now: CotTime): Message {
    var event := Envelope(TAKP_V, uid, now, now);
    event.(detail := Some(EMPTY_CONTROL.(supported := [PROTO_VERSION], serverVersion := Some(serverVersion),
                                         apiVersion := Some(apiVersion))))
  }

  function Request(uid: string, version: U32, now: CotTime): Message {
    var event := Envelope(TAKP_Q, uid, now, now);
    event.(detail := Some(EMPTY_CONTROL.(request := Some(version))))
  }

  function Response(uid: string, accepted: bool, now: CotTime): Message {
    var event := Envelope(TAKP_R, uid, now, now);
    event.(detail := Some(EMPTY_CONTROL.(response := Some(accepted))))
  }

  function ParseAnnounce(event: Message): Option<Announcement> {
    if event.cotType != TAKP_V then None
    else match event.detail
      case None => None
      case Some(c) => Some(Announcement(c.supported, c.serverVersion, c.apiVersion))
  }

  /** `None` means "do not answer". */
  function ParseRequest(event: Message): Option<U32> {
    if event.cotType != TAKP_Q then None
    else match event.detail
      case None => None
      case Some(c) => c.request
  }

  function ParseResponse(event: Message): Option<bool> {
    if event.cotType != TAKP_R then None
    else match event.detail
      case None => None
      case Some(c) => c.response
  }

  predicate Supports(offer: Announcement, version: U32) {
    version in offer.versions
  }

  predicate IsNegotiation(event: Message) {
    event.cotType == TAKP_V || event.cotType == TAKP_Q || event.cotType == TAKP_R
  }

  predicate IsRequest(event: Message) {
    event.cotType == TAKP_Q
  }

  predicate IsResponse(event: Message) {
    event.cotType == TAKP_R
  }

  predicate IsAcceptance(event: Message) {
    ParseResponse(event) == Some(true)
  }

  /** Sent now on that uid, and stale after the timeout, or at the end of time where that comes first. */
  predicate IsValidFrom(event: Message, uid: string, now: CotTime) {
    && event.uid == uid && event.time == event.start == now && event.how == Some("m-g")
    && event.stale == (if now + 60_000 <= I64_MAX then now + 60_000 else I64_MAX)
  }

  /**
   * Each message is read back by its own parser and by no other, and lives for the client's whole timeout wherever time
   * reaches that far.
   */
  lemma MessagesRoundTrip(uid: string, serverVersion: string, api: U32, version: U32, accepted: bool, now: CotTime)
    ensures
      var v := Announce(uid, serverVersion, api, now);
      && ParseAnnounce(v) == Some(Announcement([PROTO_VERSION], Some(serverVersion), Some(api)))
      && Supports(ParseAnnounce(v).value, version) == (version == PROTO_VERSION)
      && ParseRequest(v).None? && ParseResponse(v).None?
      && v.cotType == "t-x-takp-v" && IsValidFrom(v, uid, now)
    ensures
      var q := Request(uid, version, now);
      && ParseRequest(q) == Some(version) && ParseAnnounce(q).None? && ParseResponse(q).None?
      && q.cotType == "t-x-takp-q" && IsValidFrom(q, uid, now)
    ensures
      var r := Response(uid, accepted, now);
      && ParseResponse(r) == Some(accepted) && ParseAnnounce(r).None? && ParseRequest(r).None?
      && r.cotType == "t-x-takp-r" && IsValidFrom(r, uid, now)
  {
  }

  /** No event whatever is read by two of the parsers, and none that is not a negotiation message by any. */
  lemma AtMostOneParserReads(event: Message)
    ensures ParseAnnounce(event).Some? ==> ParseRequest(event).None? && ParseResponse(event).None?
    ensures ParseRequest(event).Some? ==> ParseResponse(event).None?
    ensures !IsNegotiation(event) ==>
              ParseAnnounce(event).None? && ParseRequest(event).None? && ParseResponse(event).None?
  {
  }

  // ---- the server's end ----

  /** How the installation answers. */
  datatype Policy = Accept | Refuse | Silent

  datatype ServerState = Disabled | Offered(uid: string) | Switched | Plain

  /** What handling a message produced. */
  datatype Reaction = NotMine | Ignored | Refused(answer: Message) | Accepted(answer: Message)

  function ServerStart(policy: Policy): ServerState {
    if policy.Silent? then Disabled else Plain
  }

  function MakeOffer(state: ServerState, uid: string, serverVersion: string, now: CotTime)
    : (r: (ServerState, Option<Message>))
  {
    if state.Plain? then (Offered(uid), Some(Announce(uid, serverVersion, API_VERSION, now))) else (state, None)
  }

  function OnMessage(state: ServerState, policy: Policy, event: Message, now: CotTime): (ServerState, Reaction) {
    if event.cotType != TAKP_Q then (state, NotMine)
    else if !state.Offered? then (state, Ignored)
    else match ParseRequest(event)
      case None => (state, Ignored)
      case Some(version) =>
        if version != PROTO_VERSION || policy.Refuse? then (Plain, Refused(Response(state.uid, false, now)))
        else (Switched, Accepted(Response(state.uid, true, now)))
  }

  /** What a server asks of a request, in the message's own fields: its type, and that it names version 1. */
  predicate AsksForVersion1(event: Message) {
    event.cotType == "t-x-takp-q" && event.detail.Some? && event.detail.value.request == Some(1)
  }

  /**
   * A server answers only a request that names a version, only while its offer stands and on the offer's uid: it accepts
   * version 1 unless it was told to refuse, and refuses everything else.
   */
  lemma ServerAnswersARequest(state: ServerState, policy: Policy, event: Message, now: CotTime)
    ensures
      var (after, reaction) := OnMessage(state, policy, event, now);
      var named := event.cotType == "t-x-takp-q" && event.detail.Some? && event.detail.value.request.Some?;
      && (reaction.Accepted? <==> state.Offered? && AsksForVersion1(event) && !policy.Refuse?)
      && (reaction.Refused? <==> state.Offered? && named && (policy.Refuse? || !AsksForVersion1(event)))
      && (reaction.NotMine? <==> event.cotType != "t-x-takp-q")
      && (reaction.Accepted? ==> after.Switched? && reaction.answer == Response(state.uid, true, now))
      && (reaction.Refused? ==> after.Plain? && reaction.answer == Response(state.uid, false, now))
      && (!reaction.Accepted? && !reaction.Refused? ==> after == state)
  {
  }

  /** A server offers unless it was told to be silent: version 1 of the protocol, at version 3 of the interface. */
  lemma ServerOffersVersion1(policy: Policy, uid: string, serverVersion: string, now: CotTime)
    ensures
      var (after, offer) := MakeOffer(ServerStart(policy), uid, serverVersion, now);
      && (offer.Some? <==> !policy.Silent?) && (offer.Some? <==> after == Offered(uid))
      && (offer.Some? ==>
            offer.value.uid == uid && ParseAnnounce(offer.value) == Some(Announcement([1], Some(serverVersion), Some(3))))
  {
  }

  class ServerNegotiation {
    var state: ServerState
    const serverVersion: string
    const policy: Policy

    constructor (policy: Policy, serverVersion: string)
      ensures state == ServerStart(policy) && this.policy == policy && this.serverVersion == serverVersion
    {
      this.policy, this.serverVersion := policy, serverVersion;
      state := if policy.Silent? then Disabled else Plain;
    }

    method Offer(uid: string, now: CotTime) returns (offer: Option<Message>)
      modifies this
      ensures (state, offer) == MakeOffer(old(state), uid, serverVersion, now)
    {
      if state != Plain {
        return None;
      }
      offer := Some(Announce(uid, serverVersion, API_VERSION, now));
      state := Offered(uid);
    }

    method OnEvent(event: Message, now: CotTime) returns (reaction: Reaction)
      modifies this
      ensures (state, reaction) == OnMessage(old(state), policy, event, now)
    {
      if event.cotType != TAKP_Q {
        return NotMine;
      }
      if !state.Offered? {
        return Ignored;
      }
      var uid := state.uid;
      var version := ParseRequest(event);
      if version.None? {
        return Ignored;
      }
      if version.value != PROTO_VERSION || policy.Refuse? {
        state := Plain;
        return Refused(Response(uid, false, now));
      }
      state := Switched;
      reaction := Accepted(Response(uid, true, now));
    }
  }

  /** A run of messages over one negotiation. */
  function OnMessages(state: ServerState, policy: Policy, events: seq<Message>, now: CotTime): ServerState {
    if events == [] then state
    else OnMessage(OnMessages(state, policy, events[..|events| - 1], now), policy, events[|events| - 1], now).0
  }

  /** Whether an event is a request the server would refuse. */
  predicate IsRefusable(policy: Policy, event: Message) {
    ParseRequest(event).Some? && (ParseRequest(event).value != PROTO_VERSION || policy.Refuse?)
  }

  /** A request the server reads at all. */
  predicate IsReadable(event: Message) {
    ParseRequest(event).Some?
  }

  predicate NoneReadable(events: seq<Message>) {
    forall i :: 0 <= i < |events| ==> !IsReadable(events[i])
  }

  /** Whether the first readable request among the events is one the server refuses. */
  predicate FirstIsRefused(policy: Policy, events: seq<Message>) {
    exists i :: 0 <= i < |events| && IsRefusable(policy, events[i]) && NoneReadable(events[..i])
  }

  lemma OneMoreMessage(policy: Policy, front: seq<Message>, last: Message)
    ensures NoneReadable(front + [last]) <==> NoneReadable(front) && !IsReadable(last)
    ensures FirstIsRefused(policy, front + [last])
            <==> FirstIsRefused(policy, front) || (NoneReadable(front) && IsRefusable(policy, last))
  {
    var events := front + [last];
    assert events[|front|] == last && events[..|front|] == front;
    assert forall i :: 0 <= i < |front| ==> front[i] == events[i] && front[..i] == events[..i];
  }

  /** Where one message takes a server that has made its offer. */
  lemma OneAnswer(state: ServerState, policy: Policy, event: Message, now: CotTime)
    ensures
      var after := OnMessage(state, policy, event, now).0;
      if !state.Offered? || !IsReadable(event) then after == state
      else if IsRefusable(policy, event) then after == Plain
      else after == Switched
  {
  }

  /** Where a run of messages takes it. */
  lemma {:induction false} AfterMessages(uid: string, policy: Policy, events: seq<Message>, now: CotTime)
    ensures
      var after := OnMessages(Offered(uid), policy, events, now);
      && (after == Offered(uid) <==> NoneReadable(events))
      && (after == Plain <==> FirstIsRefused(policy, events))
      && (after == Offered(uid) || after == Plain || after == Switched)
  {
    if events != [] {
      var front := events[..|events| - 1];
      var last := events[|events| - 1];
      AfterMessages(uid, policy, front, now);
      assert events == front + [last];
      OneMoreMessage(policy, front, last);
      OneAnswer(OnMessages(Offered(uid), policy, front, now), policy, last, now);
    }
  }

  /**
   * An offer is not repeated, whatever arrives after it, with one exception: once the first readable request has been
   * refused, asking again would offer again.
   */
  lemma OfferedOnceUnlessRefused(
    uid: string, again: string, serverVersion: string, policy: Policy, events: seq<Message>, now: CotTime)
    requires !policy.Silent?
    ensures
      var after := OnMessages(MakeOffer(ServerStart(policy), uid, serverVersion, now).0, policy, events, now);
      && (MakeOffer(after, again, serverVersion, now).1.Some? <==> FirstIsRefused(policy, events))
      && (after == Offered(uid) <==> NoneReadable(events))
      && (after.Offered? ==> after.uid == uid) && !after.Disabled?
  {
    AfterMessages(uid, policy, events, now);
  }

  // ---- the client's end ----

  datatype ClientState = Waiting | Requested | Proto | Xml

  /** Between its request and the answer a client writes nothing. */
  predicate IsQuiet(state: ClientState) {
    state.Requested?
  }

  function OnAnnounce(state: ClientState, enabled: bool, event: Message, now: CotTime): (ClientState, Option<Message>) {
    match ParseAnnounce(event)
    case None => (state, None)
    case Some(offer) =>
      if !state.Waiting? then (state, None)
      else if !enabled || !Supports(offer, PROTO_VERSION) then (Xml, None)
      else (Requested, Some(Request(event.uid, PROTO_VERSION, now)))
  }

  /** The state a response settles on, or `None` when it changes nothing. */
  function OnResponse(state: ClientState, event: Message): Option<ClientState> {
    if !state.Requested? then None
    else match ParseResponse(event)
      case None => None
      case Some(accepted) => Some(if accepted then Proto else Xml)
  }

  function Expire(state: ClientState): ClientState {
    if state.Requested? then Xml else state
  }

  /** What a client asks of an offer, in the message's own fields: its type, and that version 1 is among what it lists. */
  predicate OffersVersion1(event: Message) {
    && event.cotType == "t-x-takp-v" && event.detail.Some?
    && exists i :: 0 <= i < |event.detail.value.supported| && event.detail.value.supported[i] == 1
  }

  /**
   * A client asks exactly when it is waiting, enabled and offered version 1, and then for version 1 on the offer's uid; any
   * other offer it can read settles it on XML, and anything else leaves it waiting.
   */
  lemma ClientAsksForVersion1(state: ClientState, enabled: bool, event: Message, now: CotTime)
    ensures
      var (after, request) := OnAnnounce(state, enabled, event, now);
      && (request.Some? <==> state.Waiting? && enabled && OffersVersion1(event))
      && (request.Some? ==>
            && after.Requested? && request.value.uid == event.uid && AsksForVersion1(request.value))
      && (request.None? && state.Waiting? ==>
            after == if event.cotType == "t-x-takp-v" && event.detail.Some? then ClientState.Xml else Waiting)
      && (!state.Waiting? ==> after == state)
  {
    if ParseAnnounce(event).Some? {
      assert Supports(ParseAnnounce(event).value, 1) <==> OffersVersion1(event);
    }
  }

  /** And it settles on the answer's own word exactly while its request is outstanding. */
  lemma ClientTakesTheAnswer(state: ClientState, event: Message, accepted: bool)
    ensures OnResponse(state, event) == Some(if accepted then Proto else ClientState.Xml)
            <==> state.Requested? && event.cotType == "t-x-takp-r" && event.detail.Some?
                 && event.detail.value.response == Some(accepted)
    ensures Expire(state) == if state.Requested? then ClientState.Xml else state
  {
  }

  class ClientNegotiation {
    var state: ClientState
    const enabled: bool
    var serverVersion: Option<string>

    constructor (enabled: bool)
      ensures state == Waiting && this.enabled == enabled && serverVersion == None
    {
      this.enabled, state, serverVersion := enabled, Waiting, None;
    }

    method OnOffer(event: Message, now: CotTime) returns (request: Option<Message>)
      modifies this
      ensures (state, request) == OnAnnounce(old(state), enabled, event, now)
      ensures serverVersion == if old(serverVersion).Some? || ParseAnnounce(event).None? then old(serverVersion)
                               else ParseAnnounce(event).value.serverVersion
    {
      var read := ParseAnnounce(event);
      if read.None? {
        return None;
      }
      if serverVersion.None? {
        serverVersion := read.value.serverVersion;
      }
      if state != Waiting {
        return None;
      }
      if !enabled || !Supports(read.value, PROTO_VERSION) {
        state := Xml;
        return None;
      }
      state := Requested;
      request := Some(Request(event.uid, PROTO_VERSION, now));
    }

    method OnAnswer(event: Message) returns (settled: Option<ClientState>)
      modifies this`state
      ensures settled == OnResponse(old(state), event)
      ensures state == settled.GetOr(old(state))
    {
      if state != Requested {
        return None;
      }
      var accepted := ParseResponse(event);
      if accepted.None? {
        return None;
      }
      state := if accepted.value then Proto else Xml;
      settled := Some(state);
    }

    method GiveUp() returns (now: ClientState)
      modifies this`state
      ensures state == now == Expire(old(state))
    {
      if state == Requested {
        state := Xml;
      }
      now := state;
    }
  }

  /** Once settled a client never changes its encoding, and it settles on protobuf only by an acceptance it waits for. */
  lemma SettledStaysSettled(state: ClientState, enabled: bool, event: Message, now: CotTime)
    ensures state.Proto? || state.Xml? ==>
              OnAnnounce(state, enabled, event, now) == (state, None)
              && OnResponse(state, event).None? && Expire(state) == state
    ensures OnResponse(state, event) == Some(Proto) <==> state.Requested? && IsAcceptance(event)
    ensures OnAnnounce(state, enabled, event, now).1.Some? ==>
              state.Waiting? && enabled && OnAnnounce(state, enabled, event, now).1.value.uid == event.uid
    ensures !OnAnnounce(state, enabled, event, now).0.Proto? || state.Proto?
  {
  }
}
