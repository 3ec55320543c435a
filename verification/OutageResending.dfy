/** When markers are sent: at once when new or changed or after a reconnection, and within `refresh` whatever happens. */
module OutageResending {
  import opened Wrappers
  import opened CotTimes
  import opened CotEvents
  import opened Outages
  import opened OutagePublishers
  import opened OutageRuns

  // ---- what a publisher goes by ----

  /** The scope last set. */
  function LastScope(scope: Scope, steps: seq<Step>): Scope {
    if steps == [] then scope
    else match steps[|steps| - 1]
      case Rescope(other) => other
      case _ => LastScope(scope, steps[..|steps| - 1])
  }

  /** Over every run a publisher goes by the scope last set, and by the staleness it was made with. */
  lemma {:induction false} ScopeIsTheLastOneSet(scope: Scope, stale: nat, refresh: nat, steps: seq<Step>)
    ensures
      var s := Run(Start(scope, stale, refresh), steps).state;
      s.scope == LastScope(scope, steps) && s.stale == stale && s.refresh == ClampedRefresh(stale, refresh)
  {
    if steps != [] {
      var front := steps[..|steps| - 1];
      ScopeIsTheLastOneSet(scope, stale, refresh, front);
      if steps[|steps| - 1].Offer? {
        OfferAllConserves(Run(Start(scope, stale, refresh), front).state, steps[|steps| - 1].snapshot,
                          steps[|steps| - 1].now);
      }
    }
  }

  // ---- what an offer sends ----

  /** A marker for `uid`, made at `now`, among those after the first `from`. */
  ghost predicate SentSince(log: seq<Marker>, from: nat, uid: string, now: Instant) {
    exists k :: from <= k < |log| && log[k].uid == uid && log[k].time == now
  }

  /** Whatever is listed and not held, or held and due, goes out, however the snapshot spells it. */
  lemma {:induction false} DueIsSent(s: State, snapshot: seq<Outage>, now: Instant, id: string)
    requires id in s.held ==> s.held[id].due <= now
    requires LastAdmitted(s.scope, snapshot, id).Some?
    ensures
      var r := OfferAll(s, snapshot, now);
      s.outbox <= r.outbox && SentSince(r.outbox, |s.outbox|, Uid(id), now)
  {
    var front := snapshot[..|snapshot| - 1];
    var last := snapshot[|snapshot| - 1];
    var m := OfferAll(s, front, now);
    var r := OfferAll(s, snapshot, now);
    OfferAllConserves(s, front, now);
    OnlyWhatIsAdmittedGoesOut(s, front, now);
    OnlyWhatIsAdmittedGoesOut(s, snapshot, now);
    HeldAfterOfferAll(s, front, now, id);
    if LastAdmitted(s.scope, front, id).Some? {
      DueIsSent(s, front, now, id);
      var k :| |s.outbox| <= k < |m.outbox| && m.outbox[k].uid == Uid(id) && m.outbox[k].time == now;
      assert r.outbox[k] == m.outbox[k];
    } else {
      assert r.outbox[|m.outbox|] == ToEvent(last, now, s.stale, now);
    }
  }

  lemma SentSinceShifts(drained: seq<Marker>, outbox: seq<Marker>, from: nat, uid: string, now: Instant)
    requires from <= |outbox| && SentSince(outbox, from, uid, now)
    ensures SentSince(drained + outbox, |drained| + from, uid, now)
  {
    var k :| from <= k < |outbox| && outbox[k].uid == uid && outbox[k].time == now;
    assert (drained + outbox)[|drained| + k] == outbox[k];
  }

  lemma ShownIsAdmitted(s: State, snapshot: seq<Outage>, now: Instant, id: string)
    requires exists i :: 0 <= i < |snapshot| && snapshot[i].id == id && IsShown(s.scope, snapshot[i])
    ensures LastAdmitted(s.scope, snapshot, id).Some?
  {
    HeldIsTheList(s, snapshot, now);
  }

  lemma OfferSends(h: History, snapshot: seq<Outage>, now: Instant, id: string)
    requires id in h.state.held ==> h.state.held[id].due <= now
    requires exists i :: 0 <= i < |snapshot| && snapshot[i].id == id && IsShown(h.state.scope, snapshot[i])
    ensures SentSince(Log(Next(h, Offer(snapshot, now))), |Log(h)|, Uid(id), now)
  {
    ShownIsAdmitted(h.state, snapshot, now, id);
    DueIsSent(h.state, snapshot, now, id);
    SentSinceShifts(h.drained, OfferAll(h.state, snapshot, now).outbox, |h.state.outbox|, Uid(id), now);
  }

  // ---- over runs ----

  /** A run without offers. */
  predicate NoOffers(steps: seq<Step>) {
    forall i :: 0 <= i < |steps| ==> !steps[i].Offer?
  }

  predicate AllDueBy(s: State, now: int) {
    forall id :: id in s.held ==> s.held[id].due <= now
  }

  lemma DueAfterAStep(h: History, step: Step, now: Instant)
    requires !step.Offer? && AllDueBy(h.state, now)
    ensures AllDueBy(Next(h, step).state, now)
  {
  }

  lemma {:induction false} DueStaysDue(h: History, steps: seq<Step>, now: Instant)
    requires NoOffers(steps) && AllDueBy(h.state, now)
    ensures AllDueBy(Run(h, steps).state, now)
  {
    if steps != [] {
      var front := steps[..|steps| - 1];
      DueStaysDue(h, front, now);
      DueAfterAStep(Run(h, front), steps[|steps| - 1], now);
    }
  }

  /**
   * A reconnection loses nothing: after any history and a reconnection, the next offer sends a marker for everything it
   * lists of a kind and in a place to show, whatever was sent for it before and however lately.
   */
  lemma ReconnectingResends(scope: Scope, stale: nat, refresh: nat, before: seq<Step>, between: seq<Step>,
                            snapshot: seq<Outage>, now: Instant, i: nat)
    requires NoOffers(between) && i < |snapshot|
    requires IsShown(LastScope(LastScope(scope, before), between), snapshot[i])
    ensures
      var h := Run(Start(scope, stale, refresh), before + [Reconnect] + between);
      SentSince(Log(Next(h, Offer(snapshot, now))), |Log(h)|, Uid(snapshot[i].id), now)
  {
    var start := Start(scope, stale, refresh);
    var steps := before + [Reconnect];
    var h := Run(start, steps + between);
    assert steps[..|before|] == before;
    RunConcat(start, steps, between);
    DueStaysDue(Run(start, steps), between, now);
    ScopeIsTheLastOneSet(scope, stale, refresh, steps + between);
    LastScopeConcat(scope, steps, between);
    OfferSends(h, snapshot, now, snapshot[i].id);
  }

  lemma {:induction false} LastScopeConcat(scope: Scope, first: seq<Step>, second: seq<Step>)
    ensures LastScope(scope, first + second) == LastScope(LastScope(scope, first), second)
  {
    if second == [] {
      assert first + second == first;
    } else {
      assert (first + second)[..|first + second| - 1] == first + second[..|second| - 1];
      LastScopeConcat(scope, first, second[..|second| - 1]);
    }
  }

  /**
   * Nothing waits longer than `refresh`: after any history, an offer sends everything it lists to show that has never
   * been on the map, or whose latest marker is as old as the refresh in effect.
   */
  lemma NothingWaitsLonger(scope: Scope, stale: nat, refresh: nat, steps: seq<Step>,
                           snapshot: seq<Outage>, now: Instant, i: nat)
    requires i < |snapshot| && IsShown(LastScope(scope, steps), snapshot[i])
    requires
      var last := LastFor(Log(Run(Start(scope, stale, refresh), steps)), Uid(snapshot[i].id));
      last.Some? ==> last.value.time + ClampedRefresh(stale, refresh) <= now
    ensures
      var h := Run(Start(scope, stale, refresh), steps);
      SentSince(Log(Next(h, Offer(snapshot, now))), |Log(h)|, Uid(snapshot[i].id), now)
  {
    var start := Start(scope, stale, refresh);
    var h := Run(start, steps);
    var id := snapshot[i].id;
    RunBacksWithoutAClock(start, steps);
    ScopeIsTheLastOneSet(scope, stale, refresh, steps);
    if id in h.state.held {
      assert Backed(h.drained + h.state.outbox, h.state, id, MAX_UTC);
      RefreshAfterIsSpread(h.state.refresh, id);
    }
    OfferSends(h, snapshot, now, id);
  }
}
