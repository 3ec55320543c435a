/** When markers are on the map: never missing while listed, and never sent more often than promised. */
module OutageTiming {
  import opened Wrappers
  import opened CotTimes
  import opened CotEvents
  import opened Outages
  import opened OutagePublishers
  import opened OutageRuns

  /** Some published marker for `uid` is live at `t`. */
  ghost predicate Covered(log: seq<Marker>, uid: string, t: Instant) {
    exists k :: 0 <= k < |log| && log[k].uid == uid && log[k].time <= t && !IsStaleAt(log[k], t)
  }

  lemma CoveredStays(log: seq<Marker>, longer: seq<Marker>, uid: string, t: Instant)
    requires log <= longer && Covered(log, uid, t)
    ensures Covered(longer, uid, t)
  {
    var k :| 0 <= k < |log| && log[k].uid == uid && log[k].time <= t && !IsStaleAt(log[k], t);
    assert longer[k] == log[k];
  }

  /** Every offer of a run lists an admitted outage under `id`. */
  predicate AdmittedThroughout(h: History, steps: seq<Step>, id: string) {
    steps == [] ||
    var front := steps[..|steps| - 1];
    && AdmittedThroughout(h, front, id)
    && match steps[|steps| - 1]
       case Offer(snapshot, _) => id in Listed(Run(h, front).state.scope, snapshot)
       case _ => true
  }

  /** No two consecutive offers, the one at `before` included, are more than `gap` apart. */
  predicate Spaced(steps: seq<Step>, before: int, gap: nat) {
    steps == [] ||
    var front := steps[..|steps| - 1];
    && Spaced(front, before, gap)
    && (steps[|steps| - 1].Offer? ==> steps[|steps| - 1].now <= LastOffer(front, before) + gap)
  }

  lemma {:induction false} ParametersAreFixed(h: History, steps: seq<Step>)
    ensures Run(h, steps).state.stale == h.state.stale && Run(h, steps).state.refresh == h.state.refresh
    ensures Log(h) <= Log(Run(h, steps))
  {
    if steps != [] {
      var front := steps[..|steps| - 1];
      ParametersAreFixed(h, front);
      var at := Run(h, front);
      match steps[|steps| - 1] {
        case Offer(snapshot, now) =>
          OfferAllConserves(at.state, snapshot, now);
          OnlyWhatIsAdmittedGoesOut(at.state, snapshot, now);
        case Drain =>
        case Reconnect =>
        case Rescope(_) =>
      }
    }
  }

  /** A listed outage was either published by this offer or is not yet due. */
  predicate Fresh(log: seq<Marker>, s: State, id: string, now: Instant) {
    && id in s.held
    && Backed(log, s, id, now)
    && (LastFor(log, Uid(id)).value.time == now || now < s.held[id].due)
  }

  lemma OfferOneFreshens(drained: seq<Marker>, s: State, outage: Outage, now: Instant, id: string)
    requires AllBacked(drained, s, now)
    requires (Admits(s.scope, outage) && outage.id == id) || Fresh(drained + s.outbox, s, id, now)
    ensures
      var r := OfferOne(s, outage, now);
      Fresh(drained + r.outbox, r, id, now)
  {
    var r := OfferOne(s, outage, now);
    OfferOneBacks(drained, s, outage, now, now);
    assert Backed(drained + r.outbox, r, id, now);
    if r.outbox != s.outbox {
      var marker := ToEvent(outage, now, s.stale, now);
      assert drained + r.outbox == drained + s.outbox + [marker];
      LastForConcat(drained + s.outbox, [marker], Uid(id));
      UidIsInjective(outage.id, id);
    }
  }

  lemma {:induction false} OfferAllFreshens(
    drained: seq<Marker>, s: State, snapshot: seq<Outage>, now: Instant, id: string)
    requires AllBacked(drained, s, now)
    requires LastAdmitted(s.scope, snapshot, id).Some?
    ensures
      var r := OfferAll(s, snapshot, now);
      Fresh(drained + r.outbox, r, id, now)
  {
    var front := snapshot[..|snapshot| - 1];
    OfferAllConserves(s, front, now);
    OfferAllBacks(drained, s, front, now, now);
    if LastAdmitted(s.scope, front, id).Some? {
      OfferAllFreshens(drained, s, front, now, id);
    }
    OfferOneFreshens(drained, OfferAll(s, front, now), snapshot[|snapshot| - 1], now, id);
  }

  /** An offer that lists `id` leaves it fresh. */
  lemma OfferFreshens(h: History, snapshot: seq<Outage>, now: Instant, id: string)
    requires AllBacked(h.drained, h.state, now)
    requires id in Listed(h.state.scope, snapshot)
    ensures
      var r := Next(h, Offer(snapshot, now));
      Fresh(Log(r), r.state, id, now)
  {
    LastAdmittedIsListed(h.state.scope, snapshot, id);
    OfferAllFreshens(h.drained, h.state, snapshot, now, id);
    var all := OfferAll(h.state, snapshot, now);
    assert Backed(h.drained + all.outbox, all, id, now);
  }

  /** The map has shown `id` ever since `first`, and its latest marker is at most half a lifetime old. */
  ghost predicate Steady(h: History, id: string, first: int, last: int) {
    && id in h.state.held
    && Backed(Log(h), h.state, id, last)
    && last - LastFor(Log(h), Uid(id)).value.time <= h.state.stale / 2
    && forall t: Instant :: first <= t <= last ==> Covered(Log(h), Uid(id), t)
  }

  /** The latest marker covers every instant from its own to the end of its lifetime. */
  lemma BackedCovers(h: History, id: string, last: int, t: Instant)
    requires id in h.state.held && Backed(Log(h), h.state, id, last)
    requires
      var time := LastFor(Log(h), Uid(id)).value.time;
      time <= t < time + h.state.stale
    ensures Covered(Log(h), Uid(id), t)
  {
    var log := Log(h);
    var marker := LastFor(log, Uid(id)).value;
    LastForIsInTheLog(log, Uid(id));
    MarkerLives(h.state.held[id].outage, marker.time, h.state.stale, marker.time, t);
    var k :| 0 <= k < |log| && log[k] == marker;
    assert log[k].uid == Uid(id);
  }

  lemma FreshIsSteady(h: History, id: string, now: Instant)
    requires h.state.stale > 0 && h.state.refresh <= h.state.stale / 2
    requires Fresh(Log(h), h.state, id, now)
    ensures Steady(h, id, now, now)
  {
    RefreshAfterIsSpread(h.state.refresh, id);
    var time := LastFor(Log(h), Uid(id)).value.time;
    assert time <= now < time + h.state.stale;
    BackedCovers(h, id, now, now);
  }

  lemma OfferKeepsSteady(h: History, snapshot: seq<Outage>, now: Instant, id: string, first: int, last: int)
    requires h.state.stale > 0 && h.state.refresh <= h.state.stale / 2
    requires AllBacked(h.drained, h.state, last) && Steady(h, id, first, last)
    requires last <= now <= last + h.state.stale / 2
    requires id in Listed(h.state.scope, snapshot)
    ensures Steady(Next(h, Offer(snapshot, now)), id, first, now)
  {
    var step := Offer(snapshot, now);
    var r := Next(h, step);
    AllBackedLater(h.drained, h.state, last, now);
    OfferFreshens(h, snapshot, now, id);
    OfferAllConserves(h.state, snapshot, now);
    FreshIsSteady(r, id, now);
    assert Run(h, [step]) == r by { assert [step][..0] == []; }
    ParametersAreFixed(h, [step]);
    forall t: Instant | first <= t <= now
      ensures Covered(Log(r), Uid(id), t)
    {
      if t < now {
        if t > last {
          BackedCovers(h, id, last, t);
        }
        CoveredStays(Log(h), Log(r), Uid(id), t);
      }
    }
  }

  lemma QuietStepKeepsSteady(h: History, step: Step, id: string, first: int, last: int)
    requires !step.Offer? && Steady(h, id, first, last)
    ensures Steady(Next(h, step), id, first, last)
  {
    var r := Next(h, step);
    assert Log(r) == Log(h);
    assert Backed(Log(r), r.state, id, last);
  }

  lemma {:induction false} RunKeepsSteady(h: History, steps: seq<Step>, id: string, first: int, last: int)
    requires h.state.stale > 0 && h.state.refresh <= h.state.stale / 2
    requires AllBacked(h.drained, h.state, last) && Steady(h, id, first, last)
    requires Ordered(steps, last) && Spaced(steps, last, h.state.stale / 2)
    requires AdmittedThroughout(h, steps, id)
    ensures Steady(Run(h, steps), id, first, LastOffer(steps, last))
  {
    if steps != [] {
      var front := steps[..|steps| - 1];
      RunKeepsSteady(h, front, id, first, last);
      ParametersAreFixed(h, front);
      RunBacks(h, front, last);
      match steps[|steps| - 1] {
        case Offer(snapshot, now) =>
          OfferKeepsSteady(Run(h, front), snapshot, now, id, first, LastOffer(front, last));
        case _ =>
          QuietStepKeepsSteady(Run(h, front), steps[|steps| - 1], id, first, LastOffer(front, last));
      }
    }
  }

  /** After any run, an offer that lists an outage leaves it shown from then on. */
  lemma OfferShows(
    scope: Scope, stale: nat, refresh: nat, before: seq<Step>, snapshot: seq<Outage>, now: Instant, id: string)
    requires stale > 0
    requires Ordered(before, MIN_UTC) && LastOffer(before, MIN_UTC) <= now
    requires id in Listed(Run(Start(scope, stale, refresh), before).state.scope, snapshot)
    ensures
      var shown := Next(Run(Start(scope, stale, refresh), before), Offer(snapshot, now));
      && shown.state.stale == stale && shown.state.refresh <= stale / 2
      && AllBacked(shown.drained, shown.state, now) && Steady(shown, id, now, now)
  {
    var start := Start(scope, stale, refresh);
    var h := Run(start, before);
    ParametersAreFixed(start, before);
    RunBacks(start, before, MIN_UTC);
    AllBackedLater(h.drained, h.state, LastOffer(before, MIN_UTC), now);
    StepBacks(h, Offer(snapshot, now), LastOffer(before, MIN_UTC));
    OfferFreshens(h, snapshot, now, id);
    OfferAllConserves(h.state, snapshot, now);
    FreshIsSteady(Next(h, Offer(snapshot, now)), id, now);
  }

  /**
   * A marker never blinks. From any offer that lists an outage, through any run whose offers all list it and are at
   * most half a lifetime apart, there is a live marker for it at every instant up to the last offer, whatever
   * `refresh` was configured and whatever happened before.
   */
  lemma NeverBlinks(
    scope: Scope, stale: nat, refresh: nat,
    before: seq<Step>, snapshot: seq<Outage>, now: Instant, after: seq<Step>, id: string, t: Instant)
    requires stale > 0
    requires Ordered(before, MIN_UTC) && LastOffer(before, MIN_UTC) <= now && Ordered(after, now)
    requires Spaced(after, now, stale / 2)
    requires id in Listed(Run(Start(scope, stale, refresh), before).state.scope, snapshot)
    requires AdmittedThroughout(Next(Run(Start(scope, stale, refresh), before), Offer(snapshot, now)), after, id)
    requires now <= t <= LastOffer(after, now)
    ensures Covered(Log(Run(Start(scope, stale, refresh), before + [Offer(snapshot, now)] + after)), Uid(id), t)
  {
    var start := Start(scope, stale, refresh);
    var step := Offer(snapshot, now);
    var shown := Next(Run(start, before), step);
    OfferShows(scope, stale, refresh, before, snapshot, now, id);
    RunKeepsSteady(shown, after, id, now, now);
    assert (before + [step])[..|before|] == before;
    assert Run(start, before + [step]) == shown;
    RunConcat(start, before + [step], after);
  }

  // ---- the other side: how seldom a marker that has not changed is sent ----

  /** Every entry listed under an id is this very outage. */
  predicate ListsOnly(scope: Scope, snapshot: seq<Outage>, outage: Outage) {
    && outage in snapshot && Admits(scope, outage)
    && forall o :: o in snapshot && o.id == outage.id ==> o == outage
  }

  /** A run whose offers all list the outage unchanged, with no reconnection to make it due early. */
  predicate UnchangedThroughout(h: History, steps: seq<Step>, outage: Outage) {
    steps == [] ||
    var front := steps[..|steps| - 1];
    && UnchangedThroughout(h, front, outage)
    && match steps[|steps| - 1]
       case Offer(snapshot, _) => ListsOnly(Run(h, front).state.scope, snapshot, outage)
       case Reconnect => false
       case _ => true
  }

  /** When markers were published under a uid, oldest first. */
  function SentFor(log: seq<Marker>, uid: string): seq<CotTime> {
    if log == [] then []
    else
      var last := log[|log| - 1];
      SentFor(log[..|log| - 1], uid) + (if last.uid == uid then [last.time] else [])
  }

  lemma {:induction false} SentForConcat(a: seq<Marker>, b: seq<Marker>, uid: string)
    ensures SentFor(a + b, uid) == SentFor(a, uid) + SentFor(b, uid)
  {
    if b == [] {
      assert a + b == a;
    } else {
      assert (a + b)[..|a + b| - 1] == a + b[..|b| - 1];
      SentForConcat(a, b[..|b| - 1], uid);
    }
  }

  function Times(now: CotTime, count: nat): (times: seq<CotTime>)
    ensures |times| == count && forall i :: 0 <= i < count ==> times[i] == now
  {
    seq(count, i => now)
  }

  /** From `s` to `r`, an outage was sent `count` times and held anew at `now`, or nothing about its id changed. */
  ghost predicate SentOrUntouched(s: State, r: State, outage: Outage, now: Instant, count: nat) {
    var id := outage.id;
    && r.scope == s.scope && r.refresh == s.refresh
    && SentFor(r.outbox, Uid(id)) == SentFor(s.outbox, Uid(id)) + Times(now, count)
    && (id in r.held <==> count > 0 || id in s.held)
    && (id in r.held ==>
          r.held[id] == if count > 0 then Held(outage, now + RefreshAfter(s.refresh, id)) else s.held[id])
  }

  /** One entry sends at most its own marker. */
  lemma OfferOneSends(s: State, entry: Outage, now: Instant, outage: Outage)
    requires entry.id == outage.id ==> entry == outage
    ensures SentOrUntouched(s, OfferOne(s, entry, now), outage, now,
                            if entry == outage && Admits(s.scope, outage) && !IsCurrent(s, outage, now) then 1 else 0)
  {
    var r := OfferOne(s, entry, now);
    UidIsInjective(entry.id, outage.id);
    if r.outbox != s.outbox {
      assert r.outbox[..|r.outbox| - 1] == s.outbox;
    }
  }

  /** An outage is due if nothing is held for it, or something else is, or its time has come. */
  predicate IsDue(s: State, outage: Outage, now: Instant) {
    outage.id !in s.held || s.held[outage.id].outage != outage || s.held[outage.id].due <= now
  }

  /** How often a snapshot lists an outage. */
  function Listings(snapshot: seq<Outage>, outage: Outage): nat {
    if snapshot == [] then 0
    else Listings(snapshot[..|snapshot| - 1], outage) + if snapshot[|snapshot| - 1] == outage then 1 else 0
  }

  /**
   * How often an offer sends an outage: once if it is due, however often it is listed, or not at all. Only where its
   * share of `refresh` rounds to nothing is it due again at once.
   */
  function Sends(s: State, snapshot: seq<Outage>, now: Instant, outage: Outage): nat {
    if !IsDue(s, outage, now) then 0
    else if RefreshAfter(s.refresh, outage.id) == 0 || Listings(snapshot, outage) == 0 then Listings(snapshot, outage)
    else 1
  }

  lemma {:induction false} SentAsOftenAsDue(s: State, snapshot: seq<Outage>, now: Instant, outage: Outage)
    requires Admits(s.scope, outage)
    requires forall o :: o in snapshot && o.id == outage.id ==> o == outage
    ensures SentOrUntouched(s, OfferAll(s, snapshot, now), outage, now, Sends(s, snapshot, now, outage))
  {
    if snapshot == [] {
      assert SentFor(s.outbox, Uid(outage.id)) + [] == SentFor(s.outbox, Uid(outage.id));
    } else {
      var front := snapshot[..|snapshot| - 1];
      assert snapshot == front + [snapshot[|snapshot| - 1]];
      SentAsOftenAsDue(s, front, now, outage);
      OneMoreEntry(s, front, snapshot[|snapshot| - 1], now, outage);
    }
  }

  lemma OneMoreEntry(s: State, front: seq<Outage>, entry: Outage, now: Instant, outage: Outage)
    requires Admits(s.scope, outage) && (entry.id == outage.id ==> entry == outage)
    requires SentOrUntouched(s, OfferAll(s, front, now), outage, now, Sends(s, front, now, outage))
    ensures SentOrUntouched(s, OfferOne(OfferAll(s, front, now), entry, now), outage, now,
                            Sends(s, front + [entry], now, outage))
  {
    var m := OfferAll(s, front, now);
    var before := Sends(s, front, now, outage);
    var more := Sends(s, front + [entry], now, outage) - before;
    assert (front + [entry])[..|front|] == front;
    OfferOneSends(m, entry, now, outage);
    assert more == if entry == outage && !IsCurrent(m, outage, now) then 1 else 0;
    var sent := SentFor(s.outbox, Uid(outage.id));
    assert sent + Times(now, before) + Times(now, more) == sent + Times(now, before + more);
  }

  lemma {:induction false} ListedIsCounted(snapshot: seq<Outage>, outage: Outage)
    ensures outage in snapshot <==> Listings(snapshot, outage) > 0
  {
    if snapshot != [] {
      ListedIsCounted(snapshot[..|snapshot| - 1], outage);
      assert snapshot == snapshot[..|snapshot| - 1] + [snapshot[|snapshot| - 1]];
    }
  }

  /** What an offer that lists an outage, and nothing else under its id, sends for it, and when it is next due. */
  lemma OfferSendsIfDue(drained: seq<Marker>, s: State, snapshot: seq<Outage>, now: Instant, outage: Outage)
    requires ListsOnly(s.scope, snapshot, outage)
    ensures
      var r := AfterOffer(s, snapshot, now);
      && r.refresh == s.refresh
      && SentFor(drained + r.outbox, Uid(outage.id))
         == SentFor(drained + s.outbox, Uid(outage.id)) + Times(now, Sends(s, snapshot, now, outage))
      && outage.id in r.held
      && r.held[outage.id] == if IsDue(s, outage, now) then Held(outage, now + RefreshAfter(s.refresh, outage.id))
                              else s.held[outage.id]
  {
    var all := OfferAll(s, snapshot, now);
    var uid := Uid(outage.id);
    var sends := Times(now, Sends(s, snapshot, now, outage));
    SentAsOftenAsDue(s, snapshot, now, outage);
    ListedIsCounted(snapshot, outage);
    RetainKeepsListed(all, Listed(s.scope, snapshot), outage.id);
    SentForConcat(drained, all.outbox, uid);
    SentForConcat(drained, s.outbox, uid);
    assert SentFor(drained, uid) + (SentFor(s.outbox, uid) + sends)
           == SentFor(drained, uid) + SentFor(s.outbox, uid) + sends;
  }

  lemma RetainKeepsListed(s: State, listed: set<string>, id: string)
    requires id in s.held && id in listed
    ensures
      var r := Retain(s, listed);
      r.outbox == s.outbox && r.refresh == s.refresh && id in r.held && r.held[id] == s.held[id]
  {
  }

  predicate SpreadOut(times: seq<CotTime>, gap: nat) {
    forall i, j :: 0 <= i < j < |times| ==> times[i] + gap <= times[j]
  }

  /** What is held is this outage, not due until its share of `refresh` has passed since each marker from the `from`th on. */
  predicate Paced(h: History, from: nat, outage: Outage) {
    var gap := RefreshAfter(h.state.refresh, outage.id);
    var sent := SentFor(Log(h), Uid(outage.id));
    && outage.id in h.state.held && h.state.held[outage.id].outage == outage
    && from <= |sent|
    && SpreadOut(sent[from..], gap)
    && forall i :: from <= i < |sent| ==> sent[i] + gap <= h.state.held[outage.id].due
  }

  lemma MoreStaySpread(times: seq<CotTime>, count: nat, from: nat, gap: nat, due: int, now: CotTime)
    requires from <= |times| && SpreadOut(times[from..], gap)
    requires forall i :: from <= i < |times| ==> times[i] + gap <= due
    requires due <= now && (count > 1 ==> gap == 0)
    ensures SpreadOut((times + Times(now, count))[from..], gap)
    ensures forall i :: from <= i < |times| + count ==> (times + Times(now, count))[i] + gap <= now + gap
  {
    var longer := times + Times(now, count);
    assert longer[from..] == times[from..] + Times(now, count);
    assert forall i :: 0 <= i < |times| - from ==> times[from..][i] == times[from + i];
  }

  /** An offer that lists an outage starts its pace, whatever was held or sent for it before. */
  lemma OfferStartsPace(h: History, snapshot: seq<Outage>, now: Instant, outage: Outage)
    requires ListsOnly(h.state.scope, snapshot, outage)
    ensures Paced(Next(h, Offer(snapshot, now)), |SentFor(Log(h), Uid(outage.id))|, outage)
  {
    var sent := SentFor(Log(h), Uid(outage.id));
    var sends := Sends(h.state, snapshot, now, outage);
    OfferSendsIfDue(h.drained, h.state, snapshot, now, outage);
    MoreStaySpread(sent, sends, |sent|, RefreshAfter(h.state.refresh, outage.id), now, now);
  }

  lemma OfferKeepsPace(h: History, snapshot: seq<Outage>, now: Instant, from: nat, outage: Outage)
    requires ListsOnly(h.state.scope, snapshot, outage) && Paced(h, from, outage)
    ensures Paced(Next(h, Offer(snapshot, now)), from, outage)
  {
    OfferSendsIfDue(h.drained, h.state, snapshot, now, outage);
    var sent := SentFor(Log(h), Uid(outage.id));
    if IsDue(h.state, outage, now) {
      MoreStaySpread(sent, Sends(h.state, snapshot, now, outage), from, RefreshAfter(h.state.refresh, outage.id),
                     h.state.held[outage.id].due, now);
    } else {
      assert sent + [] == sent;
    }
  }

  lemma {:induction false} UnchangedKeepsPace(h: History, steps: seq<Step>, from: nat, outage: Outage)
    requires Paced(h, from, outage) && UnchangedThroughout(h, steps, outage)
    ensures Paced(Run(h, steps), from, outage)
  {
    if steps != [] {
      var front := steps[..|steps| - 1];
      UnchangedKeepsPace(h, front, from, outage);
      var at := Run(h, front);
      match steps[|steps| - 1] {
        case Offer(snapshot, now) => OfferKeepsPace(at, snapshot, now, from, outage);
        case Drain => assert Log(Next(at, Drain)) == Log(at);
        case Rescope(_) =>
        case Reconnect =>
      }
    }
  }

  /**
   * From any offer that lists an outage, after any history, and as long as it stays listed unchanged and nothing
   * reconnects, it is sent no more often than every half of `refresh`.
   */
  lemma UnchangedIsPaced(scope: Scope, stale: nat, refresh: nat,
                         before: seq<Step>, snapshot: seq<Outage>, now: Instant, after: seq<Step>, outage: Outage)
    requires ListsOnly(Run(Start(scope, stale, refresh), before).state.scope, snapshot, outage)
    requires UnchangedThroughout(Next(Run(Start(scope, stale, refresh), before), Offer(snapshot, now)), after, outage)
    ensures
      var start := Start(scope, stale, refresh);
      var earlier := |SentFor(Log(Run(start, before)), Uid(outage.id))|;
      var sent := SentFor(Log(Run(start, before + [Offer(snapshot, now)] + after)), Uid(outage.id));
      earlier <= |sent| && SpreadOut(sent[earlier..], ClampedRefresh(stale, refresh) / 2)
  {
    var start := Start(scope, stale, refresh);
    var h := Run(start, before);
    var listed := Next(h, Offer(snapshot, now));
    var earlier := |SentFor(Log(h), Uid(outage.id))|;
    OfferStartsPace(h, snapshot, now, outage);
    UnchangedKeepsPace(listed, after, earlier, outage);
    ParametersAreFixed(start, before);
    ParametersAreFixed(h, [Offer(snapshot, now)]);
    ParametersAreFixed(listed, after);
    RefreshAfterIsSpread(listed.state.refresh, outage.id);
    assert (before + [Offer(snapshot, now)])[..|before|] == before;
    assert Run(start, before + [Offer(snapshot, now)]) == listed;
    RunConcat(start, before + [Offer(snapshot, now)], after);
  }
}
