/** One power outage, the marker it becomes, and which outages are shown. */
module Outages {
  import opened Wrappers
  import opened CotTimes
  import opened CotEvents

  datatype OutageKind = Fault | Planned | Restored | Other

  /** Latitude and longitude, only ever compared and looked up. */
  datatype Position = Position(lat: real, lon: real)

  /** One outage as a source reported it. */
  datatype Outage = Outage(
    id: string,
    kind: OutageKind,
    position: Position,
    location: Option<string>,
    depot: Option<string>,
    customers: Option<nat>,
    startedAt: Option<Instant>,
    estimatedRestoreAt: Option<Instant>,
    restoredAt: Option<Instant>,
    status: Option<string>,
    plannedReason: Option<string>)

  const COT_TYPE := "b-m-p-s-m"
  const HOW := "m-r"
  const UID_PREFIX := "ESB-"

  /** A marker; its detail is the outage its label, remarks and colour are drawn from. */
  type Marker = Event<Outage>

  /** The uid an outage id appears on the map under. */
  function Uid(id: string): string {
    UID_PREFIX + id
  }

  /** Two outages never share a marker. */
  lemma UidIsInjective(a: string, b: string)
    ensures Uid(a) == Uid(b) <==> a == b
  {
    assert Uid(a)[|UID_PREFIX|..] == a;
    assert Uid(b)[|UID_PREFIX|..] == b;
  }

  /** The marker for `outage`, valid from `now` for `stale`; `wall` is when the builder was made. */
  function ToEvent(outage: Outage, now: Instant, stale: nat, wall: CotTime): (marker: Marker)
    ensures marker.uid == Uid(outage.id) == "ESB-" + outage.id && marker.detail == outage
    ensures marker.cotType == "b-m-p-s-m" && marker.how == Some("m-r")
    ensures marker.time == marker.start == now
    ensures marker.stale == StaleAfter(now, stale)
  {
    var blank := Blank(COT_TYPE, Uid(outage.id), outage, wall);
    WithStale(WithStart(WithTime(WithHow(blank, HOW), now), now), StaleAfter(now, stale))
  }

  /** The marker does not depend on when the builder was made. */
  lemma ToEventIgnoresTheWallClock(outage: Outage, now: Instant, stale: nat, wall: CotTime, other: CotTime)
    ensures ToEvent(outage, now, stale, wall) == ToEvent(outage, now, stale, other)
  {
  }

  /** A marker is live from the instant it is made up to, and not including, `stale` later. */
  lemma MarkerLives(outage: Outage, now: Instant, stale: nat, wall: CotTime, t: Instant)
    ensures !IsStaleAt(ToEvent(outage, now, stale, wall), t) <==> t < now + stale
  {
    if stale > I64_MAX {
      assert MillisOf(stale) == I64_MAX;
    }
  }

  /** An area, as the positions it contains. */
  datatype Area = Area(contains: Position -> bool)

  /** Where to look, and which kinds of outage get a marker. */
  datatype Scope = Scope(area: Area, kinds: seq<OutageKind>)

  predicate Admits(scope: Scope, outage: Outage) {
    outage.kind in scope.kinds && scope.area.contains(outage.position)
  }
}
