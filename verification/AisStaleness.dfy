/** How long each vessel's marker lives: one `stale` for the feed, shortened for a vessel under way. */
module AisStaleness {
  import opened Wrappers
  import opened CotTimes
  import opened CotEvents
  import opened AisMapping

  /** A configured span in whole milliseconds, which a file may spell negative. */
  function ToStd(span: int, fallback: nat): nat {
    if span < 0 then fallback else span
  }

  /** The publishing policy's spans, as configured. */
  datatype Policy = Policy(stale: int, minInterval: int, maxInterval: int)

  function MinInterval(policy: Policy): nat { ToStd(policy.minInterval, 5_000) }

  function MaxInterval(policy: Policy): nat { ToStd(policy.maxInterval, 60_000) }

  /** The gap between two refreshes of a vessel that is not moving. */
  function RefreshGap(policy: Policy): nat { MaxInterval(policy) + MinInterval(policy) }

  /** How long a vessel under way lives on a map: what was asked for, raised to the refresh gap. */
  function UnderWayStale(asked: int, policy: Policy): nat {
    var wanted := ToStd(asked, 120_000);
    if wanted < RefreshGap(policy) then RefreshGap(policy) else wanted
  }

  /**
   * A vessel under way lives as long as was asked and as the gap between two refreshes, and no longer than the longer of
   * them; a span spelled negative stands for its default of two minutes, five seconds and one minute.
   */
  lemma UnderWayIsTheLonger(asked: int, policy: Policy)
    ensures
      asked >= 0 && policy.minInterval >= 0 && policy.maxInterval >= 0 ==>
        var gap := policy.maxInterval + policy.minInterval;
        var span := UnderWayStale(asked, policy);
        span >= asked && span >= gap && (span == asked || span == gap)
    ensures asked < 0 ==> UnderWayStale(asked, policy) == UnderWayStale(120_000, policy)
    ensures policy.minInterval < 0 ==>
              UnderWayStale(asked, policy) == UnderWayStale(asked, policy.(minInterval := 5_000))
    ensures policy.maxInterval < 0 ==>
              UnderWayStale(asked, policy) == UnderWayStale(asked, policy.(maxInterval := 60_000))
  {
  }

  /** The ids of the tracks that are stationary, gathered as they are offered. */
  method StationaryIds(tracks: seq<Track>) returns (stationary: set<string>)
    ensures forall id :: id in stationary <==>
                         exists i :: 0 <= i < |tracks| && tracks[i].id == id && IsStationary(tracks[i])
  {
    stationary := {};
    for i := 0 to |tracks|
      invariant forall id :: id in stationary <==>
                             exists j :: 0 <= j < i && tracks[j].id == id && IsStationary(tracks[j])
    {
      if IsStationary(tracks[i]) {
        stationary := stationary + {tracks[i].id};
      }
    }
  }

  /** An event of a vessel under way, with its staleness shortened; one of a stationary vessel, as it was. */
  function Shortened<D>(event: Event<D>, stationary: set<string>, underWay: nat): Event<D> {
    if event.uid in stationary then event else event.(stale := StaleAfter(event.time, underWay))
  }

  /** Everything the harness should write: what the publisher buffered, each event with its vessel's own staleness. */
  method Drain<D>(pending: seq<Event<D>>, stationary: set<string>, underWay: nat) returns (events: seq<Event<D>>)
    ensures |events| == |pending|
    ensures forall i :: 0 <= i < |pending| ==> events[i] == Shortened(pending[i], stationary, underWay)
  {
    events := pending;
    for i := 0 to |events|
      invariant |events| == |pending|
      invariant forall j :: 0 <= j < i ==> events[j] == Shortened(pending[j], stationary, underWay)
      invariant forall j :: i <= j < |pending| ==> events[j] == pending[j]
    {
      if events[i].uid !in stationary {
        events := events[i := events[i].(stale := StaleAfter(events[i].time, underWay))];
      }
    }
  }

  /** A marker under way outlives the refresh gap, unless that ran past the end of time, and by no more than was asked. */
  lemma UnderWayOutlivesTheGap<D>(event: Event<D>, stationary: set<string>, asked: int, policy: Policy)
    requires event.uid !in stationary
    ensures
      var live := Shortened(event, stationary, UnderWayStale(asked, policy));
      && (live.stale - live.time >= RefreshGap(policy) || live.stale == I64_MAX
          || UnderWayStale(asked, policy) > I64_MAX)
      && (live.stale - live.time == UnderWayStale(asked, policy)
          <==> UnderWayStale(asked, policy) <= I64_MAX && event.time + UnderWayStale(asked, policy) <= I64_MAX)
      && (UnderWayStale(asked, policy) <= I64_MAX ==>
            forall now: CotTime :: event.time <= now < event.time + RefreshGap(policy) && now < I64_MAX ==>
                                     !IsStaleAt(live, now))
      && live == event.(stale := live.stale)
  {
    var span := UnderWayStale(asked, policy);
    GapUndoesStaleAfter(event.time, span);
    if span <= I64_MAX {
      assert MillisOf(span) == span;
    }
  }

  /**
   * One tick: events built from the tracks of this tick. A vessel keeps the feed's own staleness exactly when some
   * report of it in this tick said at anchor, moored or aground; every other one gets the shortened one.
   */
  lemma AnchoredKeepTheFeedsStaleness<D>(
    reports: seq<(Position, Option<StaticData>)>, source: string, stationary: set<string>,
    event: Event<D>, underWay: nat, mmsi: Mmsi)
    requires event.uid == Id(mmsi)
    requires forall id :: id in stationary <==>
                          exists i :: 0 <= i < |reports| && TrackOf(reports[i].0, reports[i].1, source).id == id
                                      && IsStationary(TrackOf(reports[i].0, reports[i].1, source))
    ensures
      (exists i :: 0 <= i < |reports| && reports[i].0.mmsi == mmsi && reports[i].0.navStatus.Some?
                   && IsStationaryStatus(reports[i].0.navStatus.value))
      <==> event.uid in stationary
    ensures event.uid in stationary ==> Shortened(event, stationary, underWay) == event
    ensures event.uid !in stationary ==> Shortened(event, stationary, underWay).stale == StaleAfter(event.time, underWay)
  {
    forall i | 0 <= i < |reports|
      ensures TrackOf(reports[i].0, reports[i].1, source).id == Id(mmsi) <==> reports[i].0.mmsi == mmsi
      ensures IsStationary(TrackOf(reports[i].0, reports[i].1, source))
              <==> reports[i].0.navStatus.Some? && IsStationaryStatus(reports[i].0.navStatus.value)
    {
      IdIsInjective(reports[i].0.mmsi, mmsi);
      StationaryReadsBack(reports[i].0, reports[i].1, source);
    }
  }
}
