/** The CoT event and the builder that times it. */
module CotEvents {
  import opened Wrappers
  import opened CotTimes

  /** A Cursor-on-Target event; `detail` is whatever the sender attached. */
  datatype Event<+D> = Event(
    cotType: string,
    uid: string,
    how: Option<string>,
    time: CotTime,
    start: CotTime,
    stale: CotTime,
    detail: D)

  /** Whether an event has expired at `now`; the stale instant itself counts as expired. */
  predicate IsStaleAt<D>(event: Event<D>, now: CotTime) {
    event.stale <= now
  }

  /** What a builder starts from: timed to the moment it was made, and already expired. */
  function Blank<D>(cotType: string, uid: string, detail: D, wall: CotTime): Event<D> {
    Event(cotType, uid, None, wall, wall, wall, detail)
  }

  /** `time` and `start` together, keeping the interval to `stale`. */
  function WithTime<D>(event: Event<D>, time: CotTime): Event<D> {
    event.(time := time, start := time, stale := Clamp(time + Gap(event.stale, event.time)))
  }

  function WithStart<D>(event: Event<D>, start: CotTime): Event<D> {
    event.(start := start)
  }

  function WithStale<D>(event: Event<D>, stale: CotTime): Event<D> {
    event.(stale := stale)
  }

  /** `stale` measured from `start`. */
  function WithStaleAfter<D>(event: Event<D>, after: nat): Event<D> {
    event.(stale := StaleAfter(event.start, after))
  }

  function WithHow<D>(event: Event<D>, how: string): Event<D> {
    event.(how := Some(how))
  }

  /** The builder itself: one owned event whose fields its setters assign. */
  class EventBuilder<D> {
    var event: Event<D>

    constructor (cotType: string, uid: string, detail: D, wall: CotTime)
      ensures event == Blank(cotType, uid, detail, wall)
    {
      event := Event(cotType, uid, None, wall, wall, wall, detail);
    }

    method How(how: string)
      modifies this
      ensures event == WithHow(old(event), how)
    {
      event := event.(how := Some(how));
    }

    method Time(time: CotTime)
      modifies this
      ensures event == WithTime(old(event), time)
    {
      var validity := Gap(event.stale, event.time);
      event := event.(time := time);
      event := event.(start := time);
      event := event.(stale := Clamp(time + validity));
    }

    method Start(start: CotTime)
      modifies this
      ensures event == WithStart(old(event), start)
    {
      event := event.(start := start);
    }

    method Stale(stale: CotTime)
      modifies this
      ensures event == WithStale(old(event), stale)
    {
      event := event.(stale := stale);
    }

    method StaleAfter(after: nat)
      modifies this
      ensures event == WithStaleAfter(old(event), after)
    {
      event := event.(stale := CotTimes.StaleAfter(event.start, after));
    }

    method Build() returns (built: Event<D>)
      ensures built == event
    {
      built := event;
    }
  }

  /** Moving an event keeps its lifetime, whatever was set before, exactly when both instants stay in range. */
  lemma MovingKeepsTheLifetime<D>(event: Event<D>, time: CotTime)
    ensures
      var lifetime := event.stale - event.time;
      WithTime(event, time).stale - time == lifetime
      <==> I64_MIN <= lifetime <= I64_MAX && I64_MIN <= time + lifetime <= I64_MAX
  {
    var lifetime := event.stale - event.time;
    var kept := Gap(event.stale, event.time);
    var moved := WithTime(event, time).stale;
    assert moved == Clamp(time + kept);
    if !(I64_MIN <= lifetime <= I64_MAX) {
      assert lifetime > I64_MAX ==> kept == I64_MAX && moved - time <= I64_MAX;
      assert lifetime < I64_MIN ==> kept == I64_MIN && moved - time >= I64_MIN;
    }
  }

  /** The start moves alone, and a lifetime asked for afterwards is measured from it and not from the time. */
  lemma LifetimesStartAtTheStart<D>(event: Event<D>, start: CotTime, how: string, after: nat)
    ensures
      var moved := WithStaleAfter(WithHow(WithStart(event, start), how), after);
      && moved.start == start && moved.time == event.time && moved.how == Some(how)
      && moved.cotType == event.cotType && moved.uid == event.uid && moved.detail == event.detail
      && (start + after <= I64_MAX ==> Gap(moved.stale, moved.start) == Clamp(after))
  {
    if start + after <= I64_MAX && after <= I64_MAX {
      GapUndoesStaleAfter(start, after);
    }
  }

  // ---- chains of the two setters that keep a timeline ----

  /** One call on a builder that keeps `start` at `time`. */
  datatype Timing = Time(at: CotTime) | Lasting(after: nat)

  function Set<D>(event: Event<D>, timing: Timing): Event<D> {
    match timing
    case Time(at) => WithTime(event, at)
    case Lasting(after) => WithStaleAfter(event, after)
  }

  /** A chain of calls, in order. */
  function SetAll<D>(event: Event<D>, chain: seq<Timing>): Event<D> {
    if chain == [] then event else Set(SetAll(event, chain[..|chain| - 1]), chain[|chain| - 1])
  }

  /** The instant the chain left the event at. */
  function LastTime(wall: CotTime, chain: seq<Timing>): CotTime {
    if chain == [] then wall
    else match chain[|chain| - 1]
      case Time(at) => at
      case Lasting(_) => LastTime(wall, chain[..|chain| - 1])
  }

  /** The lifetime last asked for, or none. */
  function LastAsked(chain: seq<Timing>): nat {
    if chain == [] then 0
    else match chain[|chain| - 1]
      case Time(_) => LastAsked(chain[..|chain| - 1])
      case Lasting(after) => after
  }

  /** How long a lifetime fitted before the end of time at every instant held since it was last asked for. */
  function Room(wall: CotTime, chain: seq<Timing>): nat {
    if chain == [] then I64_MAX - wall
    else
      var before := chain[..|chain| - 1];
      match chain[|chain| - 1]
      case Time(at) => if I64_MAX - at < Room(wall, before) then I64_MAX - at else Room(wall, before)
      case Lasting(_) => I64_MAX - LastTime(wall, before)
  }

  function Least(a: nat, b: nat): nat { if a < b then a else b }

  /** The whole timeline of a chain, saturation included: the lifetime is the one last asked for, cut to what fitted. */
  lemma {:induction false} Timeline<D>(cotType: string, uid: string, detail: D, wall: CotTime, chain: seq<Timing>)
    ensures
      var event := SetAll(Blank(cotType, uid, detail, wall), chain);
      && event.time == event.start == LastTime(wall, chain)
      && event.stale - event.time == Least(MillisOf(LastAsked(chain)), Room(wall, chain))
  {
    if chain != [] {
      var before := chain[..|chain| - 1];
      Timeline(cotType, uid, detail, wall, before);
      RoomFits(wall, before);
    }
  }

  lemma {:induction false} RoomFits(wall: CotTime, chain: seq<Timing>)
    ensures Room(wall, chain) <= I64_MAX - LastTime(wall, chain)
  {
    if chain != [] {
      RoomFits(wall, chain[..|chain| - 1]);
    }
  }

  /** An event never expires before it is produced, and lives as long as was last asked unless that did not fit. */
  lemma LifetimeIsTheOneAskedFor<D>(cotType: string, uid: string, detail: D, wall: CotTime, chain: seq<Timing>)
    ensures
      var event := SetAll(Blank(cotType, uid, detail, wall), chain);
      && event.start == event.time <= event.stale
      && (event.stale - event.time == LastAsked(chain)
          <==> LastAsked(chain) <= I64_MAX && LastAsked(chain) <= Room(wall, chain))
  {
    Timeline(cotType, uid, detail, wall, chain);
  }

  /** The two calls commute while the lifetime fits at both instants. */
  lemma TimeAndLifetimeCommute<D>(event: Event<D>, at: CotTime, after: nat)
    requires event.start == event.time
    requires after <= I64_MAX && event.time + after <= I64_MAX && at + after <= I64_MAX
    ensures WithTime(WithStaleAfter(event, after), at) == WithStaleAfter(WithTime(event, at), after)
  {
    GapUndoesStaleAfter(event.time, after);
  }
}
