/** What every run of a connection keeps: both ends in the same framing, nothing lost on the way up. */
module NegotiationRuns {
  import opened Wrappers
  import opened CotTimes
  import opened CotEvents
  import opened Negotiations
  import opened NegotiationLinks

  lemma RunStep(setup: Setup, steps: seq<Step>, step: Step)
    ensures Run(setup, steps + [step]) == Next(setup, Run(setup, steps), step)
    ensures RaceFree(setup, steps + [step]) <==> RaceFree(setup, steps) && !Races(setup, Run(setup, steps), step)
  {
    assert (steps + [step])[..|steps|] == steps;
  }

  /**
   * Agreement lost for good: somebody has misread something, or the server writes and reads what its client never will,
   * or a client that took up protobuf has XML coming.
   */
  predicate Astray(s: Link) {
    || s.misread
    || (s.server.Switched? && s.client.Xml?)
    || (s.server.Switched? && s.serverWrites.AsXml? && NoSwitch(s.queue))
    || (s.client.Proto? && s.clientMode.AsProto? && !(s.serverWrites.AsProto? && AllIn(s.s2c, AsProto)))
  }

  lemma AstrayIsNotSound(s: Link)
    requires Astray(s)
    ensures !Sound(s) || s.misread
  {
  }

  lemma ARaceLeadsAstray(setup: Setup, s: Link, step: Step)
    requires Sound(s) && IsOrdinary(step) && Races(setup, s, step)
    ensures Astray(Next(setup, s, step))
  {
    if step.ServerRead? {
      assert Before(s);
      assert IsRequest(s.c2s[0].event);
      GrantDecides(setup, s, step.now);
    }
  }

  lemma AstrayThroughServerRead(setup: Setup, s: Link, now: CotTime)
    requires Astray(s)
    ensures Astray(AfterServerRead(setup, s, now))
  {
  }

  lemma AstrayThroughClientRead(setup: Setup, s: Link, now: CotTime)
    requires Astray(s)
    ensures Astray(AfterClientRead(setup, s, now))
  {
  }

  lemma AstrayThroughWrite(s: Link)
    requires Astray(s)
    ensures Astray(AfterWrite(s))
  {
    var t := AfterWrite(s);
    if s.taken > 0 && s.queue != [] && s.client.Proto? && s.clientMode.AsProto? && !s.serverWrites.AsProto? {
      assert t.s2c[|s.s2c|].mode == AsXml;
    } else if i :| 0 <= i < |s.s2c| && s.s2c[i].mode != AsProto {
      assert t.s2c[i] == s.s2c[i];
    }
  }

  lemma AstrayStays(setup: Setup, s: Link, step: Step)
    requires Astray(s)
    ensures Astray(Next(setup, s, step))
  {
    if step.ServerRead? {
      AstrayThroughServerRead(setup, s, step.now);
    } else if step.ClientRead? {
      AstrayThroughClientRead(setup, s, step.now);
    } else if step.Write? {
      AstrayThroughWrite(s);
    }
  }

  /**
   * Over every run, whatever the server relays: the two ends agree and nothing has been misread exactly until a race,
   * and from the first one on agreement never comes back unnoticed.
   */
  lemma {:induction false} FramingAgreement(setup: Setup, steps: seq<Step>)
    requires AllOrdinary(steps)
    ensures RaceFree(setup, steps) <==> Sound(Run(setup, steps)) && !Run(setup, steps).misread
    ensures !RaceFree(setup, steps) <==> Astray(Run(setup, steps))
  {
    if steps == [] {
      assert Before(Opened(setup));
    } else {
      var before := steps[..|steps| - 1];
      var step := steps[|steps| - 1];
      FramingAgreement(setup, before);
      var s := Run(setup, before);
      if RaceFree(setup, steps) {
        OneStep(setup, s, step);
      } else if RaceFree(setup, before) {
        ARaceLeadsAstray(setup, s, step);
      } else {
        AstrayStays(setup, s, step);
      }
      if Astray(Run(setup, steps)) {
        AstrayIsNotSound(Run(setup, steps));
      }
    }
  }

  // ---- what each end was told ----

  /** Neither end goes beyond what it was told. */
  predicate IsAsTold(setup: Setup, s: Link) {
    && (s.server.Switched? ==> setup.policy.Accept?) && (s.server.Disabled? <==> setup.policy.Silent?)
    && (s.serverReads.AsProto? <==> s.server.Switched?)
    && (s.client.Requested? || s.client.Proto? ==> setup.enabled)
    && (s.clientMode.AsProto? <==> s.client.Proto?)
  }

  lemma StepIsAsTold(setup: Setup, s: Link, step: Step)
    requires IsAsTold(setup, s)
    ensures IsAsTold(setup, Next(setup, s, step))
  {
    if step.ClientRead? {
      ReadIsAsTold(setup, s, step.now);
    }
  }

  lemma ReadIsAsTold(setup: Setup, s: Link, now: CotTime)
    requires IsAsTold(setup, s)
    ensures IsAsTold(setup, AfterClientRead(setup, s, now))
  {
  }

  /**
   * Over every run, whatever is relayed and handed over: a server switches only where it was told to accept and never
   * offers where it was told to be silent, a client that was told not to never asks, and each reads what it settled on.
   */
  lemma {:induction false} EndsDoAsTold(setup: Setup, steps: seq<Step>)
    ensures IsAsTold(setup, Run(setup, steps))
  {
    if steps != [] {
      EndsDoAsTold(setup, steps[..|steps| - 1]);
      StepIsAsTold(setup, Run(setup, steps[..|steps| - 1]), steps[|steps| - 1]);
    }
  }

  /** The channel holds no more than it was made for, and the writer no more than one flush. */
  predicate IsBounded(setup: Setup, s: Link) {
    && s.taken <= 64 && s.taken <= |s.queue|
    && |s.queue| - s.taken <= (if setup.queueLen == 0 then 1 else setup.queueLen)
  }

  lemma StepIsBounded(setup: Setup, s: Link, step: Step)
    requires IsBounded(setup, s)
    ensures IsBounded(setup, Next(setup, s, step))
  {
    if step.ClientRead? {
      ReadLeavesTheQueue(setup, s, step.now);
    }
  }

  lemma ReadLeavesTheQueue(setup: Setup, s: Link, now: CotTime)
    ensures
      var t := AfterClientRead(setup, s, now);
      t.queue == s.queue && t.taken == s.taken
  {
  }

  /**
   * Over every run the queue is bounded, and something relayed is dropped exactly when the channel has no room for it;
   * the writer takes the next item whenever there is one and its flush has room.
   */
  lemma {:induction false} QueueIsBounded(setup: Setup, steps: seq<Step>, event: Message)
    ensures
      var s := Run(setup, steps);
      var room := |s.queue| - s.taken < if setup.queueLen == 0 then 1 else setup.queueLen;
      && IsBounded(setup, s)
      && Next(setup, s, Route(event)).queue == (if room then s.queue + [Queued(event)] else s.queue)
      && Next(setup, s, Take).taken == s.taken + (if s.taken < 64 && s.taken < |s.queue| then 1 else 0)
  {
    if steps != [] {
      QueueIsBounded(setup, steps[..|steps| - 1], event);
      StepIsBounded(setup, Run(setup, steps[..|steps| - 1]), steps[|steps| - 1]);
    }
  }

  // ---- what is in flight ----

  /** The client's end after it has taken the next `n` frames. */
  function ReadAhead(setup: Setup, s: Link, n: nat, now: CotTime): Link
    requires n <= |s.s2c|
  {
    if n == 0 then s else AfterClientRead(setup, ReadAhead(setup, s, n - 1, now), now)
  }

  lemma ReadingTakesTheFirst(setup: Setup, s: Link, now: CotTime)
    requires Sound(s) && s.s2c != [] && !Misleads(s)
    ensures
      var t := AfterClientRead(setup, s, now);
      Sound(t) && t.s2c == s.s2c[1..] && t.misread == s.misread
  {
    OneStep(setup, s, ClientRead(now));
  }

  /** Whether none of the next `n` frames is an answer that would mislead the client. */
  predicate NoneMisleads(setup: Setup, s: Link, n: nat, now: CotTime)
    requires n <= |s.s2c|
  {
    forall j :: 0 <= j < n ==> !Misleads(ReadAhead(setup, s, j, now))
  }

  lemma {:induction false} ReadingAheadTakes(setup: Setup, s: Link, n: nat, now: CotTime)
    requires Sound(s) && n <= |s.s2c| && NoneMisleads(setup, s, n, now)
    ensures Sound(ReadAhead(setup, s, n, now)) && ReadAhead(setup, s, n, now).s2c == s.s2c[n..]
    ensures ReadAhead(setup, s, n, now).misread == s.misread
  {
    if n > 0 {
      ReadingAheadTakes(setup, s, n - 1, now);
      ReadingTakesTheFirst(setup, ReadAhead(setup, s, n - 1, now), now);
    }
  }

  /** Whatever a sound client takes next is in the framing it reads. */
  lemma NextFrameFits(s: Link)
    requires Sound(s)
    ensures s.s2c != [] ==> s.s2c[0].mode == s.clientMode
    ensures forall i :: 0 <= i < |s.c2s| ==> s.c2s[i].mode == s.serverReads
  {
  }

  /**
   * Every frame on its way down is already in the framing the client will be reading when it gets there, however many
   * frames are ahead of it, unless a stranger's answer is among those; and every frame on its way up is in the framing
   * the server reads now.
   */
  lemma InFlightFramesFit(setup: Setup, steps: seq<Step>, i: nat, now: CotTime)
    requires AllOrdinary(steps) && RaceFree(setup, steps)
    ensures
      var s := Run(setup, steps);
      && (i < |s.s2c| && NoneMisleads(setup, s, i, now) ==> s.s2c[i].mode == ReadAhead(setup, s, i, now).clientMode)
      && (i < |s.c2s| ==> s.c2s[i].mode == s.serverReads)
  {
    FramingAgreement(setup, steps);
    var s := Run(setup, steps);
    NextFrameFits(s);
    if i < |s.s2c| && NoneMisleads(setup, s, i, now) {
      ReadingAheadTakes(setup, s, i, now);
      NextFrameFits(ReadAhead(setup, s, i, now));
    }
  }

  /** With nothing left to deliver downwards, all four ends of the two streams are in one framing: the one granted. */
  lemma QuiescentEndsAgree(setup: Setup, steps: seq<Step>)
    requires AllOrdinary(steps) && RaceFree(setup, steps)
    requires Run(setup, steps).queue == [] && Run(setup, steps).s2c == []
    ensures
      var s := Run(setup, steps);
      && s.serverReads == s.serverWrites == s.clientMode == (if s.server.Switched? then AsProto else AsXml)
      && (s.server.Switched? <==> s.client.Proto?)
      && (s.server.Switched? ==> s.pending == [])
  {
    FramingAgreement(setup, steps);
  }

  // ---- nothing lost, nothing reordered on the way up ----

  /** The events of `events` that are not requests to switch, in order. */
  function Plain(events: seq<Message>): seq<Message> {
    if events == [] then []
    else
      var last := events[|events| - 1];
      Plain(events[..|events| - 1]) + if IsRequest(last) then [] else [last]
  }

  function Events(frames: seq<Frame>): (r: seq<Message>)
    ensures |r| == |frames| && forall i :: 0 <= i < |r| ==> r[i] == frames[i].event
  {
    seq(|frames|, i requires 0 <= i < |frames| => frames[i].event)
  }

  lemma {:induction false} PlainConcat(a: seq<Message>, b: seq<Message>)
    ensures Plain(a + b) == Plain(a) + Plain(b)
  {
    if b == [] {
      assert a + b == a;
    } else {
      var front := b[..|b| - 1];
      PlainConcat(a, front);
      assert (a + b)[..|a + b| - 1] == a + front;
    }
  }

  lemma PlainOfOne(event: Message)
    ensures Plain([event]) == if IsRequest(event) then [] else [event]
  {
    assert [event][..0] == [];
  }

  /** What the client has still to get to the server, oldest first. */
  function OnTheWayUp(s: Link): seq<Message> {
    Events(s.c2s) + s.outbox + s.pending
  }

  lemma WritingMovesNothing(s: Link)
    ensures OnTheWayUp(AfterClientWrite(s)) == OnTheWayUp(s)
  {
    if s.outbox != [] {
      var frame := Frame(s.clientMode, s.outbox[0]);
      assert Events(s.c2s + [frame]) == Events(s.c2s) + [frame.event];
      assert s.outbox == [frame.event] + s.outbox[1..];
    }
  }

  lemma AdoptingMovesNothing(s: Link, state: ClientState)
    ensures OnTheWayUp(Adopt(s, state)) == OnTheWayUp(s)
  {
    assert Events(s.c2s) + (s.outbox + s.pending) == Events(s.c2s) + s.outbox + s.pending;
  }

  lemma HandingAppends(s: Link, event: Message)
    requires Holding(s)
    ensures OnTheWayUp(AfterHand(s, event)) == OnTheWayUp(s) + [event]
  {
    if !IsQuiet(s.client) {
      assert s.pending == [];
    }
  }

  lemma AskingAppends(s: Link, client: ClientState, request: Message)
    requires s.pending == [] && IsRequest(request)
    ensures Plain(OnTheWayUp(s.(client := client, outbox := s.outbox + [request]))) == Plain(OnTheWayUp(s))
  {
    var t := s.(client := client, outbox := s.outbox + [request]);
    assert OnTheWayUp(t) == OnTheWayUp(s) + [request];
    PlainConcat(OnTheWayUp(s), [request]);
    PlainOfOne(request);
  }

  lemma ReadingAppendsARequest(setup: Setup, s: Link, now: CotTime)
    requires Holding(s)
    ensures Plain(OnTheWayUp(AfterClientRead(setup, s, now))) == Plain(OnTheWayUp(s))
  {
    if s.s2c != [] && s.s2c[0].mode == s.clientMode {
      var event := s.s2c[0].event;
      var t := s.(s2c := s.s2c[1..]);
      if event.cotType == TAKP_V {
        var (client, request) := OnAnnounce(s.client, setup.enabled, event, now);
        if request.Some? {
          AskingAppends(t, client, request.value);
        }
      } else if event.cotType == TAKP_R && OnResponse(s.client, event).Some? {
        AdoptingMovesNothing(t, OnResponse(s.client, event).value);
      }
    }
  }

  /** What a sound server does with the frame it takes. */
  lemma RoutingTakesTheFirst(setup: Setup, s: Link, now: CotTime)
    requires s.uid.Some? && s.c2s != [] && s.c2s[0].mode == s.serverReads
    ensures
      var t := AfterServerRead(setup, s, now);
      && OnTheWayUp(t) == OnTheWayUp(s.(c2s := s.c2s[1..])) && t.handed == s.handed
      && t.heard == s.heard + if IsRequest(s.c2s[0].event) then [] else [s.c2s[0].event]
  {
    assert OnMessage(s.server, setup.policy, s.c2s[0].event, now).1.NotMine? <==> !IsRequest(s.c2s[0].event);
  }

  lemma TheFirstInLine(s: Link)
    requires s.c2s != []
    ensures
      var first := s.c2s[0].event;
      Plain(OnTheWayUp(s)) == (if IsRequest(first) then [] else [first]) + Plain(OnTheWayUp(s.(c2s := s.c2s[1..])))
  {
    var first := s.c2s[0].event;
    var rest := OnTheWayUp(s.(c2s := s.c2s[1..]));
    assert Events(s.c2s) == [first] + Events(s.c2s[1..]);
    assert OnTheWayUp(s) == [first] + rest;
    PlainConcat([first], rest);
    PlainOfOne(first);
  }

  lemma Associate<T>(a: seq<T>, b: seq<T>, c: seq<T>)
    ensures a + (b + c) == (a + b) + c
  {
  }

  lemma ServerReadLosesNothing(setup: Setup, s: Link, now: CotTime)
    requires Sound(s) && NothingLost(s)
    ensures NothingLost(AfterServerRead(setup, s, now))
  {
    if s.uid.Some? && s.c2s != [] {
      NextFrameFits(s);
      RoutingTakesTheFirst(setup, s, now);
      TheFirstInLine(s);
      var t := AfterServerRead(setup, s, now);
      var first := if IsRequest(s.c2s[0].event) then [] else [s.c2s[0].event];
      Associate(s.heard, first, Plain(OnTheWayUp(t)));
    }
  }

  lemma HandLosesNothing(s: Link, event: Message)
    requires Holding(s) && !IsRequest(event) && NothingLost(s)
    ensures NothingLost(AfterHand(s, event))
  {
    HandingAppends(s, event);
    PlainConcat(OnTheWayUp(s), [event]);
    PlainOfOne(event);
    Associate(s.heard, Plain(OnTheWayUp(s)), [event]);
  }

  /** Routed, then on its way, is what was handed over. */
  predicate NothingLost(s: Link) {
    s.heard + Plain(OnTheWayUp(s)) == s.handed
  }

  lemma ReadingRoutesNothing(setup: Setup, s: Link, now: CotTime)
    ensures AfterClientRead(setup, s, now).heard == s.heard && AfterClientRead(setup, s, now).handed == s.handed
  {
  }

  lemma ClientReadLosesNothing(setup: Setup, s: Link, now: CotTime)
    requires Sound(s) && NothingLost(s)
    ensures NothingLost(AfterClientRead(setup, s, now))
  {
    ReadingRoutesNothing(setup, s, now);
    ReadingAppendsARequest(setup, s, now);
  }

  lemma StepLosesNothing(setup: Setup, s: Link, step: Step)
    requires Sound(s) && IsOrdinary(step) && NothingLost(s)
    ensures NothingLost(Next(setup, s, step))
  {
    match step
    case ServerRead(now) => ServerReadLosesNothing(setup, s, now);
    case Hand(event) => HandLosesNothing(s, event);
    case ClientWrite => WritingMovesNothing(s);
    case ClientRead(now) => ClientReadLosesNothing(setup, s, now);
    case GiveUp => AdoptingMovesNothing(s, Expire(s.client));
    case Offer(_, _) =>
    case Route(_) =>
    case Take =>
    case Write =>
  }

  /**
   * Until a race, everything the application hands over is either already routed by the server or still on its way, in
   * the order it was handed over: the silence between request and answer loses and reorders nothing.
   */
  lemma {:induction false} NothingIsLostOnTheWayUp(setup: Setup, steps: seq<Step>)
    requires AllOrdinary(steps) && RaceFree(setup, steps)
    ensures NothingLost(Run(setup, steps))
  {
    if steps != [] {
      var before := steps[..|steps| - 1];
      var step := steps[|steps| - 1];
      NothingIsLostOnTheWayUp(setup, before);
      FramingAgreement(setup, before);
      StepLosesNothing(setup, Run(setup, before), step);
    }
  }
}
