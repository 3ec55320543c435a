/** Whole runs of the outage publisher: what the map shows, whatever order its operations come in. */
module OutageRuns {
  import opened Wrappers
  import opened CotTimes
  import opened CotEvents
  import opened Outages
  import opened OutagePublishers

  /** One operation on a publisher. */
  datatype Step =
    | Offer(snapshot: seq<Outage>, now: Instant)
    | Drain
    | Reconnect
    | Rescope(scope: Scope)

  /** A publisher, with what it has already handed over and how often it first held an id. */
  datatype History = History(state: State, drained: seq<Marker>, inserted: nat)

  /** Every marker ever published, oldest first. */
  function Log(h: History): seq<Marker> {
    h.drained + h.state.outbox
  }

  function Start(scope: Scope, stale: nat, refresh: nat): History {
    History(New(scope, stale, refresh), [], 0)
  }

  /** How many entries of a snapshot insert an id that was not held at the time. */
  function Inserts(s: State, snapshot: seq<Outage>, now: Instant): nat {
    if snapshot == [] then 0
    else
      var before := snapshot[..|snapshot| - 1];
      var outage := snapshot[|snapshot| - 1];
      var at := OfferAll(s, before, now);
      Inserts(s, before, now) + (if Admits(at.scope, outage) && outage.id !in at.held then 1 else 0)
  }

  function Next(h: History, step: Step): History {
    match step
    case Offer(snapshot, now) =>
      h.(state := AfterOffer(h.state, snapshot, now), inserted := h.inserted + Inserts(h.state, snapshot, now))
    case Drain => h.(state := h.state.(outbox := []), drained := h.drained + h.state.outbox)
    case Reconnect => h.(state := AllDue(h.state))
    case Rescope(scope) => h.(state := h.state.(scope := scope))
  }

  /** A run, in order. */
  function Run(h: History, steps: seq<Step>): History {
    if steps == [] then h else Next(Run(h, steps[..|steps| - 1]), steps[|steps| - 1])
  }

  lemma {:induction false} RunConcat(h: History, first: seq<Step>, second: seq<Step>)
    ensures Run(h, first + second) == Run(Run(h, first), second)
  {
    if second == [] {
      assert first + second == first;
    } else {
      var front := second[..|second| - 1];
      assert (first + second)[..|first + second| - 1] == first + front;
      RunConcat(h, first, front);
    }
  }

  // ---- conservation ----

  predicate Conserved(h: History) {
    var c := h.state.counters;
    && c.offered == c.published + c.suppressed
    && c.published == |h.drained| + |h.state.outbox|
    && |h.state.held| + c.expired == h.inserted
  }

  lemma {:induction false} OfferAllConserves(s: State, snapshot: seq<Outage>, now: Instant)
    ensures
      var r := OfferAll(s, snapshot, now);
      && r.scope == s.scope && r.stale == s.stale && r.refresh == s.refresh
      && r.counters.expired == s.counters.expired
      && r.counters.offered == s.counters.offered + |snapshot|
      && r.counters.offered - s.counters.offered
         == r.counters.published - s.counters.published + r.counters.suppressed - s.counters.suppressed
      && r.counters.published - s.counters.published == |r.outbox| - |s.outbox|
      && |r.held| - |s.held| == Inserts(s, snapshot, now)
  {
    if snapshot != [] {
      OfferAllConserves(s, snapshot[..|snapshot| - 1], now);
    }
  }

  /** Nothing offered, published, held or forgotten is ever lost count of, in any order of operations. */
  lemma {:induction false} CountersConserve(scope: Scope, stale: nat, refresh: nat, steps: seq<Step>)
    ensures Conserved(Run(Start(scope, stale, refresh), steps))
  {
    if steps != [] {
      var before := steps[..|steps| - 1];
      CountersConserve(scope, stale, refresh, before);
      var h := Run(Start(scope, stale, refresh), before);
      match steps[|steps| - 1] {
        case Offer(snapshot, now) => OfferAllConserves(h.state, snapshot, now);
        case Drain =>
        case Reconnect =>
          assert AllDue(h.state).held.Keys == h.state.held.Keys;
          assert |AllDue(h.state).held| == |AllDue(h.state).held.Keys|;
        case Rescope(_) =>
      }
    }
  }

  // ---- the map agrees with the list ----

  /** The last entry of a snapshot the scope admits under an id. */
  function LastAdmitted(scope: Scope, snapshot: seq<Outage>, id: string): Option<Outage> {
    if snapshot == [] then None
    else
      var outage := snapshot[|snapshot| - 1];
      if Admits(scope, outage) && outage.id == id then Some(outage)
      else LastAdmitted(scope, snapshot[..|snapshot| - 1], id)
  }

  lemma {:induction false} LastAdmittedIsListed(scope: Scope, snapshot: seq<Outage>, id: string)
    ensures
      var last := LastAdmitted(scope, snapshot, id);
      && (last.Some? <==> id in Listed(scope, snapshot))
      && (last.Some? ==> last.value in snapshot && Admits(scope, last.value) && last.value.id == id)
  {
    if snapshot != [] {
      var front := snapshot[..|snapshot| - 1];
      LastAdmittedIsListed(scope, front, id);
      assert snapshot == front + [snapshot[|snapshot| - 1]];
    }
  }

  lemma {:induction false} HeldAfterOfferAll(s: State, snapshot: seq<Outage>, now: Instant, id: string)
    ensures
      var r := OfferAll(s, snapshot, now);
      match LastAdmitted(s.scope, snapshot, id)
      case Some(outage) => id in r.held && r.held[id].outage == outage
      case None => (id in r.held <==> id in s.held) && (id in r.held ==> r.held[id] == s.held[id])
  {
    OfferAllConserves(s, snapshot, now);
    if snapshot != [] {
      var front := snapshot[..|snapshot| - 1];
      OfferAllConserves(s, front, now);
      HeldAfterOfferAll(s, front, now, id);
    }
  }

  /** Whether an entry is of a kind and in a place a publisher was told to show. */
  predicate IsShown(scope: Scope, outage: Outage) {
    scope.area.contains(outage.position) && exists i :: 0 <= i < |scope.kinds| && scope.kinds[i] == outage.kind
  }

  /**
   * After an offer, what is held is exactly the last entry for each id among those of a kind and in a place to show.
   */
  lemma HeldIsTheList(s: State, snapshot: seq<Outage>, now: Instant)
    ensures
      var r := AfterOffer(s, snapshot, now);
      && r.held.Keys == Listed(s.scope, snapshot)
      && (forall id :: id in r.held ==> LastAdmitted(s.scope, snapshot, id) == Some(r.held[id].outage))
      && (forall id :: id in r.held <==> exists i :: 0 <= i < |snapshot| && snapshot[i].id == id
                                                     && IsShown(s.scope, snapshot[i]))
  {
    var r := AfterOffer(s, snapshot, now);
    forall id
      ensures id in r.held <==> id in Listed(s.scope, snapshot)
      ensures id in r.held ==> LastAdmitted(s.scope, snapshot, id) == Some(r.held[id].outage)
    {
      LastAdmittedIsListed(s.scope, snapshot, id);
      HeldAfterOfferAll(s, snapshot, now, id);
    }
  }

  /** Whatever an offer adds to the outbox is the marker of an entry the scope admits. */
  lemma {:induction false} OnlyWhatIsAdmittedGoesOut(s: State, snapshot: seq<Outage>, now: Instant)
    ensures
      var r := AfterOffer(s, snapshot, now);
      && s.outbox <= r.outbox
      && forall k :: |s.outbox| <= k < |r.outbox| ==>
           var outage := r.outbox[k].detail;
           outage in snapshot && Admits(s.scope, outage) && IsShown(s.scope, outage) && r.outbox[k] == ToEvent(outage, now, s.stale, now)
  {
    if snapshot != [] {
      var front := snapshot[..|snapshot| - 1];
      OnlyWhatIsAdmittedGoesOut(s, front, now);
      OfferAllConserves(s, front, now);
      assert forall o :: o in front ==> o in snapshot;
    }
  }

  // ---- what was last published for an id ----

  /** The latest marker published under a uid. */
  function LastFor(log: seq<Marker>, uid: string): Option<Marker> {
    if log == [] then None
    else if log[|log| - 1].uid == uid then Some(log[|log| - 1])
    else LastFor(log[..|log| - 1], uid)
  }

  lemma {:induction false} LastForIsInTheLog(log: seq<Marker>, uid: string)
    ensures
      var last := LastFor(log, uid);
      && (last.Some? <==> exists k :: 0 <= k < |log| && log[k].uid == uid)
      && (last.Some? ==> last.value in log && last.value.uid == uid)
  {
    if log != [] {
      LastForIsInTheLog(log[..|log| - 1], uid);
      if log[|log| - 1].uid != uid {
        assert forall k :: 0 <= k < |log| - 1 ==> log[..|log| - 1][k] == log[k];
      }
    }
  }

  lemma {:induction false} LastForConcat(a: seq<Marker>, b: seq<Marker>, uid: string)
    ensures LastFor(a + b, uid) == (if LastFor(b, uid).Some? then LastFor(b, uid) else LastFor(a, uid))
  {
    if b == [] {
      assert a + b == a;
    } else {
      assert (a + b)[..|a + b| - 1] == a + b[..|b| - 1];
      LastForConcat(a, b[..|b| - 1], uid);
    }
  }

  /** The last marker published for a held id shows what is held, and is due again within its share of `refresh`. */
  predicate Backed(log: seq<Marker>, s: State, id: string, at: int)
    requires id in s.held
  {
    var last := LastFor(log, Uid(id));
    var held := s.held[id];
    && held.outage.id == id
    && last.Some?
    && last.value.time <= at
    && MIN_UTC <= last.value.time <= MAX_UTC
    && last.value == ToEvent(held.outage, last.value.time, s.stale, last.value.time)
    && held.due <= last.value.time + RefreshAfter(s.refresh, id)
  }

  predicate AllBacked(drained: seq<Marker>, s: State, at: int) {
    forall id :: id in s.held ==> Backed(drained + s.outbox, s, id, at)
  }

  lemma OfferOneBacks(drained: seq<Marker>, s: State, outage: Outage, now: Instant, at: int)
    requires AllBacked(drained, s, at) && now <= at
    ensures AllBacked(drained, OfferOne(s, outage, now), at)
  {
    var r := OfferOne(s, outage, now);
    forall id | id in r.held
      ensures Backed(drained + r.outbox, r, id, at)
    {
      if r.outbox != s.outbox {
        var marker := ToEvent(outage, now, s.stale, now);
        assert drained + r.outbox == drained + s.outbox + [marker];
        LastForConcat(drained + s.outbox, [marker], Uid(id));
        UidIsInjective(outage.id, id);
        assert [marker][..0] == [];
        if id != outage.id {
          assert Backed(drained + s.outbox, s, id, at);
        } else {
          RefreshAfterIsSpread(s.refresh, id);
        }
      } else {
        assert Backed(drained + s.outbox, s, id, at);
      }
    }
  }

  lemma {:induction false} OfferAllBacks(drained: seq<Marker>, s: State, snapshot: seq<Outage>, now: Instant, at: int)
    requires AllBacked(drained, s, at) && now <= at
    ensures AllBacked(drained, OfferAll(s, snapshot, now), at)
  {
    if snapshot != [] {
      OfferAllBacks(drained, s, snapshot[..|snapshot| - 1], now, at);
      OfferOneBacks(drained, OfferAll(s, snapshot[..|snapshot| - 1], now), snapshot[|snapshot| - 1], now, at);
    }
  }

  /** When the last offer of a run was made; `before` when it made none. */
  function LastOffer(steps: seq<Step>, before: int): int {
    if steps == [] then before
    else match steps[|steps| - 1]
      case Offer(_, now) => now
      case _ => LastOffer(steps[..|steps| - 1], before)
  }

  /** The clock never goes back between offers. */
  predicate Ordered(steps: seq<Step>, before: int) {
    steps == [] ||
    (Ordered(steps[..|steps| - 1], before) &&
     (steps[|steps| - 1].Offer? ==> LastOffer(steps[..|steps| - 1], before) <= steps[|steps| - 1].now))
  }

  lemma AllBackedLater(drained: seq<Marker>, s: State, at: int, later: int)
    requires AllBacked(drained, s, at) && at <= later
    ensures AllBacked(drained, s, later)
  {
    forall id | id in s.held
      ensures Backed(drained + s.outbox, s, id, later)
    {
      assert Backed(drained + s.outbox, s, id, at);
    }
  }

  /** A step keeps every held id backed by a marker no later than `at`, if it publishes none that is. */
  lemma StepBacksBy(h: History, step: Step, at: int)
    requires AllBacked(h.drained, h.state, at) && (step.Offer? ==> step.now <= at)
    ensures AllBacked(Next(h, step).drained, Next(h, step).state, at)
  {
    var r := Next(h, step);
    if step.Offer? {
      OfferAllBacks(h.drained, h.state, step.snapshot, step.now, at);
      var all := OfferAll(h.state, step.snapshot, step.now);
      forall id | id in r.state.held
        ensures Backed(r.drained + r.state.outbox, r.state, id, at)
      {
        assert Backed(h.drained + all.outbox, all, id, at);
      }
    } else {
      assert r.drained + r.state.outbox == h.drained + h.state.outbox;
      forall id | id in r.state.held
        ensures Backed(r.drained + r.state.outbox, r.state, id, at)
      {
        assert Backed(h.drained + h.state.outbox, h.state, id, at);
      }
    }
  }

  lemma StepBacks(h: History, step: Step, at: int)
    requires AllBacked(h.drained, h.state, at)
    requires step.Offer? ==> at <= step.now
    ensures AllBacked(Next(h, step).drained, Next(h, step).state, if step.Offer? then step.now else at)
  {
    var later := if step.Offer? then step.now else at;
    AllBackedLater(h.drained, h.state, at, later);
    StepBacksBy(h, step, later);
  }

  /** Whatever the clock does, every held id is backed. */
  lemma {:induction false} RunBacksWithoutAClock(h: History, steps: seq<Step>)
    requires AllBacked(h.drained, h.state, MAX_UTC)
    ensures AllBacked(Run(h, steps).drained, Run(h, steps).state, MAX_UTC)
  {
    if steps != [] {
      var front := steps[..|steps| - 1];
      RunBacksWithoutAClock(h, front);
      StepBacksBy(Run(h, front), steps[|steps| - 1], MAX_UTC);
    }
  }

  lemma {:induction false} RunBacks(h: History, steps: seq<Step>, at: int)
    requires AllBacked(h.drained, h.state, at) && Ordered(steps, at)
    ensures AllBacked(Run(h, steps).drained, Run(h, steps).state, LastOffer(steps, at))
  {
    if steps != [] {
      var front := steps[..|steps| - 1];
      RunBacks(h, front, at);
      StepBacks(Run(h, front), steps[|steps| - 1], LastOffer(front, at));
    }
  }

  /**
   * In every reachable state, the latest marker published for each held id is exactly the event of the value held, and
   * with a clock that does not go back it is no later than the last offer.
   */
  lemma TheMapShowsWhatIsHeld(scope: Scope, stale: nat, refresh: nat, steps: seq<Step>, id: string)
    ensures
      var h := Run(Start(scope, stale, refresh), steps);
      id in h.state.held ==>
        var last := LastFor(Log(h), Uid(id));
        && last.Some?
        && MIN_UTC <= last.value.time <= MAX_UTC
        && last.value == ToEvent(h.state.held[id].outage, last.value.time, stale, last.value.time)
        && (Ordered(steps, MIN_UTC) ==> last.value.time <= LastOffer(steps, MIN_UTC))
  {
    var start := Start(scope, stale, refresh);
    var h := Run(start, steps);
    RunBacksWithoutAClock(start, steps);
    StaleIsFixed(start, steps);
    if id in h.state.held {
      assert Backed(h.drained + h.state.outbox, h.state, id, MAX_UTC);
      if Ordered(steps, MIN_UTC) {
        RunBacks(start, steps, MIN_UTC);
        assert Backed(h.drained + h.state.outbox, h.state, id, LastOffer(steps, MIN_UTC));
      }
    }
  }

  lemma {:induction false} StaleIsFixed(h: History, steps: seq<Step>)
    ensures Run(h, steps).state.stale == h.state.stale
  {
    if steps != [] {
      var front := steps[..|steps| - 1];
      StaleIsFixed(h, front);
      if steps[|steps| - 1].Offer? {
        OfferAllConserves(Run(h, front).state, steps[|steps| - 1].snapshot, steps[|steps| - 1].now);
      }
    }
  }
}
