/** What the AIS plugin remembers about each hull between messages. */
module VesselCaches {
  import opened Wrappers
  import opened AisMapping
  import opened BoundedMemory

  /** How long static data is kept, in milliseconds. */
  const STATIC_RETENTION: nat := 1_800_000

  /** One of the two things an AIS receiver hears. */
  datatype Observation = AtPosition(position: Position) | Saying(statics: StaticData)

  /** Both halves: where each vessel last was, and what each says it is. */
  datatype Memory = Memory(positions: Held<Mmsi, Position>, statics: Held<Mmsi, StaticData>)

  const EMPTY := Memory(map[], map[])

  function ValueOf<T>(held: Held<Mmsi, T>, mmsi: Mmsi): Option<T> {
    if mmsi in held then Some(held[mmsi].value) else None
  }

  /** Static data outlives a position's horizon, and half an hour. */
  function StaticsRetention(retention: nat): (kept: nat)
    ensures kept >= retention && kept >= 30 * 60 * 1000 && (kept == retention || kept == 30 * 60 * 1000)
  {
    if STATIC_RETENTION < retention then retention else STATIC_RETENTION
  }

  function Absorbed(memory: Memory, observation: Observation, now: int): Memory {
    match observation
    case AtPosition(p) =>
      if IsUsable(p) then memory.(positions := memory.positions[p.mmsi := Heard(p, now)]) else memory
    case Saying(s) => memory.(statics := memory.statics[s.mmsi := Heard(s, now)])
  }

  /** The track an observation makes publishable: its vessel's position joined to what the vessel says it is. */
  function Offered(memory: Memory, observation: Observation, source: string): Option<Track> {
    match observation
    case AtPosition(p) =>
      if IsUsable(p) then Some(TrackOf(p, ValueOf(memory.statics, p.mmsi), source)) else None
    case Saying(s) =>
      match ValueOf(memory.positions, s.mmsi)
      case None => None
      case Some(p) => Some(TrackOf(p, Some(s), source))
  }

  /** A position inside the two ranges a map has. */
  predicate IsOnTheMap(p: Position) {
    p.lat >= -90.0 && p.lat <= 90.0 && p.lon >= -180.0 && p.lon <= 180.0
  }

  /**
   * The two reports of one vessel are joined whichever is heard first, and a position off the map joins nothing. What
   * other vessels report changes neither.
   */
  lemma ReportsAreJoined(memory: Memory, p: Position, s: StaticData, now: int, later: int, source: string)
    requires s.mmsi == p.mmsi && IsOnTheMap(p)
    ensures Offered(Absorbed(memory, Saying(s), now), AtPosition(p), source) == Some(TrackOf(p, Some(s), source))
    ensures Offered(Absorbed(memory, AtPosition(p), now), Saying(s), source) == Some(TrackOf(p, Some(s), source))
  {
  }

  lemma OtherVesselsDoNotMatter(memory: Memory, heard: Observation, asked: Observation, now: int, source: string)
    requires MmsiOf(heard) != MmsiOf(asked)
    ensures Offered(Absorbed(memory, heard, now), asked, source) == Offered(memory, asked, source)
  {
  }

  lemma OffTheMapIsNothing(memory: Memory, p: Position, now: int, source: string)
    ensures IsOnTheMap(p) <==> Offered(memory, AtPosition(p), source).Some?
    ensures !IsOnTheMap(p) ==> Absorbed(memory, AtPosition(p), now) == memory
  {
  }

  function MmsiOf(observation: Observation): Mmsi {
    match observation
    case AtPosition(p) => p.mmsi
    case Saying(s) => s.mmsi
  }

  function AbsorbedAll(memory: Memory, observations: seq<Observation>, now: int): Memory {
    if observations == [] then memory
    else
      var before := observations[..|observations| - 1];
      Absorbed(AbsorbedAll(memory, before, now), observations[|observations| - 1], now)
  }

  function OfferedAll(memory: Memory, observations: seq<Observation>, now: int, source: string): seq<Track> {
    if observations == [] then []
    else
      var before := observations[..|observations| - 1];
      var track := Offered(AbsorbedAll(memory, before, now), observations[|observations| - 1], source);
      OfferedAll(memory, before, now, source) + if track.Some? then [track.value] else []
  }

  /** A batch is its parts, one after the other: memory carries over and tracks come in order. */
  lemma {:induction false} BatchesAddUp(
    memory: Memory, first: seq<Observation>, second: seq<Observation>, now: int, source: string)
    ensures AbsorbedAll(memory, first + second, now) == AbsorbedAll(AbsorbedAll(memory, first, now), second, now)
    ensures OfferedAll(memory, first + second, now, source)
            == OfferedAll(memory, first, now, source) + OfferedAll(AbsorbedAll(memory, first, now), second, now, source)
  {
    if second == [] {
      assert first + second == first;
    } else {
      var front := second[..|second| - 1];
      assert (first + second)[..|first + second| - 1] == first + front;
      BatchesAddUp(memory, first, front, now, source);
    }
  }

  lemma ABatchOfOne(memory: Memory, observation: Observation, now: int, source: string)
    ensures AbsorbedAll(memory, [observation], now) == Absorbed(memory, observation, now)
    ensures OfferedAll(memory, [observation], now, source)
            == match Offered(memory, observation, source) case None => [] case Some(track) => [track]
  {
    assert [observation][..0] == [];
  }

  /** What sweeping both halves may leave. */
  ghost predicate Swept(before: Memory, after: Memory, now: int, retention: nat, capacity: nat) {
    && Trimmed(Retained(before.positions, now, retention), after.positions, capacity)
    && Trimmed(Retained(before.statics, now, StaticsRetention(retention)), after.statics, capacity)
  }

  class Vessels {
    var statics: Held<Mmsi, StaticData>
    var positions: Held<Mmsi, Position>
    const source: string
    const retention: nat
    const capacity: nat

    ghost function Contents(): Memory
      reads this
    {
      Memory(positions, statics)
    }

    constructor (source: string, retention: nat, capacity: nat)
      ensures Contents() == EMPTY && this.source == source && this.retention == retention
      ensures this.capacity >= 1 && (capacity >= 1 ==> this.capacity == capacity)
    {
      statics, positions := map[], map[];
      this.source, this.retention := source, retention;
      this.capacity := if capacity == 0 then 1 else capacity;
    }

    method Absorb(observation: Observation, now: int) returns (track: Option<Track>)
      modifies this
      ensures Contents() == Absorbed(old(Contents()), observation, now)
      ensures track == Offered(old(Contents()), observation, source)
    {
      match observation
      case AtPosition(position) => track := HearPosition(position, now);
      case Saying(said) => track := HearStatics(said, now);
    }

    method HearPosition(position: Position, now: int) returns (track: Option<Track>)
      modifies this`positions
      ensures Contents() == Absorbed(old(Contents()), AtPosition(position), now)
      ensures track == Offered(old(Contents()), AtPosition(position), source)
    {
      if !IsUsable(position) {
        return None;
      }
      track := Some(TrackOf(position, ValueOf(statics, position.mmsi), source));
      positions := positions[position.mmsi := Heard(position, now)];
    }

    method HearStatics(said: StaticData, now: int) returns (track: Option<Track>)
      modifies this`statics
      ensures Contents() == Absorbed(old(Contents()), Saying(said), now)
      ensures track == Offered(old(Contents()), Saying(said), source)
    {
      statics := statics[said.mmsi := Heard(said, now)];
      if said.mmsi !in positions {
        return None;
      }
      track := Some(TrackOf(positions[said.mmsi].value, ValueOf(statics, said.mmsi), source));
    }

    method AbsorbAll(observations: seq<Observation>, now: int) returns (tracks: seq<Track>)
      modifies this
      ensures tracks == OfferedAll(old(Contents()), observations, now, source)
      ensures Swept(AbsorbedAll(old(Contents()), observations, now), Contents(), now, retention, capacity)
      ensures |positions| <= capacity && |statics| <= capacity
    {
      tracks := [];
      for i := 0 to |observations|
        invariant Contents() == AbsorbedAll(old(Contents()), observations[..i], now)
        invariant tracks == OfferedAll(old(Contents()), observations[..i], now, source)
      {
        var track := Absorb(observations[i], now);
        assert observations[..i + 1][..i] == observations[..i];
        if track.Some? {
          tracks := tracks + [track.value];
        }
      }
      assert observations[..|observations|] == observations;
      Expire(now);
    }

    method Named() returns (count: nat)
      ensures count == |statics|
    {
      count := |statics|;
    }

    method Expire(now: int)
      modifies this
      ensures Swept(old(Contents()), Contents(), now, retention, capacity)
      ensures |positions| <= capacity && |statics| <= capacity
    {
      positions := Retained(positions, now, retention);
      statics := Retained(statics, now, if STATIC_RETENTION < retention then retention else STATIC_RETENTION);
      positions := Trim(positions, capacity);
      statics := Trim(statics, capacity);
    }
  }

  // ---- the cache against everything ever heard ----

  datatype Event = Absorb(observation: Observation, now: int) | Expire(now: int)

  ghost predicate IsHistory(memories: seq<Memory>, events: seq<Event>, retention: nat, capacity: nat) {
    && |memories| == |events| + 1 && memories[0] == EMPTY
    && forall i :: 0 <= i < |events| ==>
         match events[i]
         case Absorb(observation, now) => memories[i + 1] == Absorbed(memories[i], observation, now)
         case Expire(now) => Swept(memories[i], memories[i + 1], now, retention, capacity)
  }

  predicate IsOrdered(events: seq<Event>) {
    forall i, j :: 0 <= i <= j < |events| ==> events[i].now <= events[j].now
  }

  function PositionPick(event: Event): Option<Step<Mmsi, Position>> {
    match event
    case Expire(now) => Some(Sweep(now))
    case Absorb(AtPosition(p), now) => if IsUsable(p) then Some(Hear(p.mmsi, p, now)) else None
    case Absorb(Saying(_), _) => None
  }

  function StaticPick(event: Event): Option<Step<Mmsi, StaticData>> {
    match event
    case Expire(now) => Some(Sweep(now))
    case Absorb(AtPosition(_), _) => None
    case Absorb(Saying(s), now) => Some(Hear(s.mmsi, s, now))
  }

  function PositionPicks(events: seq<Event>): (picks: seq<Option<Step<Mmsi, Position>>>)
    ensures |picks| == |events|
  {
    seq(|events|, i requires 0 <= i < |events| => PositionPick(events[i]))
  }

  function StaticPicks(events: seq<Event>): (picks: seq<Option<Step<Mmsi, StaticData>>>)
    ensures |picks| == |events|
  {
    seq(|events|, i requires 0 <= i < |events| => StaticPick(events[i]))
  }

  /** Everything ever heard about positions, and when the cache was swept. */
  function PositionLog(events: seq<Event>): seq<Step<Mmsi, Position>> { Somes(PositionPicks(events)) }

  function StaticLog(events: seq<Event>): seq<Step<Mmsi, StaticData>> { Somes(StaticPicks(events)) }

  /** What an unbounded cache would hold: per vessel the latest report of each kind within its horizon. */
  function LogView(events: seq<Event>, retention: nat): Memory {
    Memory(View(PositionLog(events), retention), View(StaticLog(events), StaticsRetention(retention)))
  }

  lemma {:induction false} PickedInOrder<T>(events: seq<Event>, picks: seq<Option<Step<Mmsi, T>>>)
    requires |picks| == |events| && IsOrdered(events)
    requires forall i :: 0 <= i < |events| && picks[i].Some? ==> picks[i].value.now == events[i].now
    ensures Ordered(Somes(picks))
    ensures forall i :: 0 <= i < |Somes(picks)| ==> Somes(picks)[i].now <= events[|events| - 1].now && events != []
  {
    if picks != [] {
      PickedInOrder(events[..|events| - 1], picks[..|picks| - 1]);
    }
  }

  lemma LogsAreOrdered(events: seq<Event>)
    requires IsOrdered(events)
    ensures Ordered(PositionLog(events)) && Ordered(StaticLog(events))
  {
    PickedInOrder(events, PositionPicks(events));
    PickedInOrder(events, StaticPicks(events));
  }

  function PositionHalves(memories: seq<Memory>): (halves: seq<Held<Mmsi, Position>>)
    ensures |halves| == |memories| && forall i :: 0 <= i < |halves| ==> halves[i] == memories[i].positions
  {
    seq(|memories|, i requires 0 <= i < |memories| => memories[i].positions)
  }

  function StaticHalves(memories: seq<Memory>): (halves: seq<Held<Mmsi, StaticData>>)
    ensures |halves| == |memories| && forall i :: 0 <= i < |halves| ==> halves[i] == memories[i].statics
  {
    seq(|memories|, i requires 0 <= i < |memories| => memories[i].statics)
  }

  lemma HalvesStutter(memories: seq<Memory>, events: seq<Event>, retention: nat, capacity: nat)
    requires IsHistory(memories, events, retention, capacity)
    ensures IsStutteringRun(PositionHalves(memories), PositionPicks(events), retention, capacity)
    ensures IsStutteringRun(StaticHalves(memories), StaticPicks(events), StaticsRetention(retention), capacity)
  {
  }

  lemma HalvesAreRuns(memories: seq<Memory>, events: seq<Event>, retention: nat, capacity: nat)
    returns (positions: seq<Held<Mmsi, Position>>, statics: seq<Held<Mmsi, StaticData>>)
    requires IsHistory(memories, events, retention, capacity)
    ensures IsRun(positions, PositionLog(events), retention, capacity)
    ensures IsRun(statics, StaticLog(events), StaticsRetention(retention), capacity)
    ensures positions[|PositionLog(events)|] == memories[|events|].positions
    ensures statics[|StaticLog(events)|] == memories[|events|].statics
  {
    HalvesStutter(memories, events, retention, capacity);
    positions := WithoutStutters(PositionHalves(memories), PositionPicks(events), retention, capacity);
    statics := WithoutStutters(StaticHalves(memories), StaticPicks(events), StaticsRetention(retention), capacity);
  }

  function EventsUpToLastExpire(events: seq<Event>): seq<Event> {
    if events == [] || events[|events| - 1].Expire? then events else EventsUpToLastExpire(events[..|events| - 1])
  }

  /** What an unbounded cache held when the last expiry was done with it. */
  function ViewAtLastExpire(events: seq<Event>, retention: nat): Memory {
    LogView(EventsUpToLastExpire(events), retention)
  }

  lemma {:induction false} LastExpireIsTheLastSweep(events: seq<Event>)
    ensures PositionLog(EventsUpToLastExpire(events)) == UpToLastSweep(PositionLog(events))
    ensures StaticLog(EventsUpToLastExpire(events)) == UpToLastSweep(StaticLog(events))
  {
    if events != [] {
      var front := events[..|events| - 1];
      var last := events[|events| - 1];
      LastExpireIsTheLastSweep(front);
      LogsGrow(events);
      if PositionPick(last).Some? {
        UpToLastSweepAfter(PositionLog(front), PositionPick(last).value);
      }
      if StaticPick(last).Some? {
        UpToLastSweepAfter(StaticLog(front), StaticPick(last).value);
      }
    }
  }

  lemma LogsGrow(events: seq<Event>)
    requires events != []
    ensures
      var front := events[..|events| - 1];
      var last := events[|events| - 1];
      && PositionLog(events) == (match PositionPick(last)
                                 case None => PositionLog(front)
                                 case Some(step) => PositionLog(front) + [step])
      && StaticLog(events) == (match StaticPick(last)
                               case None => StaticLog(front)
                               case Some(step) => StaticLog(front) + [step])
  {
    var front := events[..|events| - 1];
    assert PositionPicks(events)[..|front|] == PositionPicks(front);
    assert StaticPicks(events)[..|front|] == StaticPicks(front);
  }

  /**
   * Each half of the cache holds exactly the most recent part of what an unbounded one would, over every history, and all
   * of it as long as what the last expiry left fits: a batch that outgrows the capacity is still whole until it expires.
   */
  lemma CacheRefinesTheLog(memories: seq<Memory>, events: seq<Event>, retention: nat, capacity: nat)
    requires IsHistory(memories, events, retention, capacity) && IsOrdered(events)
    ensures
      var memory := memories[|events|];
      var view := LogView(events, retention);
      var swept := ViewAtLastExpire(events, retention);
      && HoldsTheMostRecent(memory.positions, view.positions, capacity)
      && HoldsTheMostRecent(memory.statics, view.statics, capacity)
      && (|swept.positions| <= capacity || |view.positions| <= capacity ==> memory.positions == view.positions)
      && (|swept.statics| <= capacity || |view.statics| <= capacity ==> memory.statics == view.statics)
  {
    var positions, statics := HalvesAreRuns(memories, events, retention, capacity);
    var swept := ViewAtLastExpire(events, retention);
    var view := LogView(events, retention);
    LogsAreOrdered(events);
    LastExpireIsTheLastSweep(events);
    MemoryRefinesTheLog(positions, PositionLog(events), retention, capacity);
    MemoryRefinesTheLog(statics, StaticLog(events), StaticsRetention(retention), capacity);
    if |swept.positions| <= capacity {
      MemoryIsTheViewWhenTheLastSweepFits(positions, PositionLog(events), retention, capacity);
    }
    if |view.positions| <= capacity {
      MemoryIsTheViewWhenItFits(positions, PositionLog(events), retention, capacity);
    }
    if |swept.statics| <= capacity {
      MemoryIsTheViewWhenTheLastSweepFits(statics, StaticLog(events), StaticsRetention(retention), capacity);
    }
    if |view.statics| <= capacity {
      MemoryIsTheViewWhenItFits(statics, StaticLog(events), StaticsRetention(retention), capacity);
    }
  }

  /** No expiry so far found more live vessels in either half than fit. */
  ghost predicate NeverTooMany(memories: seq<Memory>, events: seq<Event>, retention: nat, capacity: nat)
    requires |memories| == |events| + 1
  {
    forall i :: 0 <= i < |events| && events[i].Expire? ==>
      && |Retained(memories[i].positions, events[i].now, retention)| <= capacity
      && |Retained(memories[i].statics, events[i].now, StaticsRetention(retention))| <= capacity
  }

  lemma HalvesAreNeverOverfull(memories: seq<Memory>, events: seq<Event>, retention: nat, capacity: nat)
    requires |memories| == |events| + 1 && NeverTooMany(memories, events, retention, capacity)
    ensures NeverOverfull(PositionHalves(memories), PositionPicks(events), retention, capacity)
    ensures NeverOverfull(StaticHalves(memories), StaticPicks(events), StaticsRetention(retention), capacity)
  {
  }

  /** The cache is the log's view, both halves of it, as long as no expiry has found more live vessels than fit. */
  lemma CacheIsTheLogUntilItOverfills(memories: seq<Memory>, events: seq<Event>, retention: nat, capacity: nat)
    requires IsHistory(memories, events, retention, capacity) && IsOrdered(events)
    requires NeverTooMany(memories, events, retention, capacity)
    ensures memories[|events|] == LogView(events, retention)
    ensures |ViewAtLastExpire(events, retention).positions| <= capacity
    ensures |ViewAtLastExpire(events, retention).statics| <= capacity
  {
    LogsAreOrdered(events);
    LastExpireIsTheLastSweep(events);
    HalvesStutter(memories, events, retention, capacity);
    HalvesAreNeverOverfull(memories, events, retention, capacity);
    NeverOverfullFitsAtTheLastSweep(PositionHalves(memories), PositionPicks(events), retention, capacity);
    NeverOverfullFitsAtTheLastSweep(StaticHalves(memories), StaticPicks(events), StaticsRetention(retention), capacity);
  }

  /**
   * A track is never built from anything but the log: it joins an observation to the log's own latest report of the other
   * kind, and misses none that the log has as long as that half fits, or fitted at the last expiry, mid-batch as well.
   */
  lemma EachTrackJoinsTheLog(memories: seq<Memory>, events: seq<Event>, retention: nat, capacity: nat,
                             observation: Observation, source: string)
    requires IsHistory(memories, events, retention, capacity) && IsOrdered(events)
    ensures
      var view := LogView(events, retention);
      var swept := ViewAtLastExpire(events, retention);
      var offered := Offered(memories[|events|], observation, source);
      match observation
      case AtPosition(p) =>
        var joined := p.mmsi in view.statics;
        && (offered.Some? <==> IsOnTheMap(p))
        && (offered.Some? ==> offered.value == TrackOf(p, None, source)
                              || (joined && offered.value == TrackOf(p, Some(view.statics[p.mmsi].value), source)))
        && (offered.Some? && joined && (|swept.statics| <= capacity || |view.statics| <= capacity) ==>
              offered.value == TrackOf(p, Some(view.statics[p.mmsi].value), source))
      case Saying(s) =>
        && (offered.Some? ==> s.mmsi in view.positions
                              && offered.value == TrackOf(view.positions[s.mmsi].value, Some(s), source))
        && (s.mmsi in view.positions && (|swept.positions| <= capacity || |view.positions| <= capacity) ==>
              offered.Some?)
  {
    CacheRefinesTheLog(memories, events, retention, capacity);
  }

  /**
   * What the log's view is: a vessel's static data is in it exactly when no expiry so far came more than half an hour, or
   * the retention if that is longer, after the vessel last sent any; and the same of its usable positions at the retention.
   */
  lemma ViewRemembersWhatIsFresh(events: seq<Event>, retention: nat, mmsi: Mmsi)
    requires IsOrdered(events)
    ensures
      var kept := if retention > 1_800_000 then retention else 1_800_000;
      var log := StaticLog(events);
      mmsi in LogView(events, retention).statics <==>
        exists i: nat :: IsLastReport(log, i, mmsi) && OutlastsEverySweep(log, log[i].now, kept)
    ensures
      var log := PositionLog(events);
      mmsi in LogView(events, retention).positions <==>
        exists i: nat :: IsLastReport(log, i, mmsi) && OutlastsEverySweep(log, log[i].now, retention)
  {
    LogsAreOrdered(events);
    ViewIsTheLastReportsStillFresh(StaticLog(events), StaticsRetention(retention), mmsi);
    ViewIsTheLastReportsStillFresh(PositionLog(events), retention, mmsi);
  }
}
