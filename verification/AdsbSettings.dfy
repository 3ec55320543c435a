/** The ADS-B plugin's file: where it reads observations from, and how long it leaves a refused interval alone. */
module AdsbSettings {
  import opened Wrappers
  import opened FeedSettings

  const SECOND: nat := 1_000
  const DEFAULT_PROBE_MAX_WAIT: nat := 3 * 3_600 * SECOND
  const LONGEST_MAX_WAIT: nat := 24 * 3_600 * SECOND
  const CLEAN_RUN: nat := 60
  const READSB_POLL: nat := SECOND
  const POLL_FLOOR: nat := 2 * SECOND
  const ANONYMOUS_INTERVAL: nat := 10 * SECOND
  const AUTHENTICATED_INTERVAL: nat := 5 * SECOND

  datatype Provider = AdsbLol | AdsbFi | AirplanesLive

  /** Spans are whole milliseconds, and a file may spell one negative. */
  datatype Source =
    | Replay
    | Readsb(poll: int)
    | Aggregator(provider: Provider, asked: Option<int>, maxWait: Option<int>)
    | OpenSky(hasId: bool, hasSecret: bool, asked: Option<int>, maxWait: Option<int>)

  datatype Settings = Settings(area: Area, symbology: Symbology, source: Source)

  function ToStd(span: Option<int>): Option<nat> {
    if span.Some? && span.value >= 0 then Some(span.value) else None
  }

  function DefaultPoll(provider: Provider): nat {
    if provider.AdsbFi? then 5 * SECOND else 10 * SECOND
  }

  function ProbeMaxWait(source: Source): Option<nat> {
    match source
    case Replay => None
    case Readsb(_) => None
    case Aggregator(_, _, wait) => ToStd(wait)
    case OpenSky(_, _, _, wait) => ToStd(wait)
  }

  function OpensAt(source: Source): Option<nat> {
    match source
    case Replay => None
    case Readsb(_) => None
    case Aggregator(provider, asked, _) =>
      var wanted := ToStd(asked).GetOr(DefaultPoll(provider));
      Some(if wanted < POLL_FLOOR then POLL_FLOOR else wanted)
    case OpenSky(hasId, hasSecret, asked, _) =>
      Some(ToStd(asked).GetOr(if hasId && hasSecret then AUTHENTICATED_INTERVAL else ANONYMOUS_INTERVAL))
  }

  /** The `poll` a file sets for a source whose default is resolved when it opens. */
  function Poll(source: Source): Option<nat> {
    match source
    case Aggregator(_, asked, _) => ToStd(asked)
    case OpenSky(_, _, asked, _) => ToStd(asked)
    case Replay => None
    case Readsb(_) => None
  }

  function Longer(a: nat, b: nat): nat { if a < b then b else a }

  /** An aggregator opens no faster than its floor, whatever a file asks for. */
  function AggregatorInterval(provider: Provider, poll: Option<nat>): nat {
    Longer(poll.GetOr(DefaultPoll(provider)), POLL_FLOOR)
  }

  /** A credential, of which half is none. */
  function Credential(hasId: bool, hasSecret: bool): Option<(bool, bool)> {
    match (hasId, hasSecret)
    case (true, true) => Some((hasId, hasSecret))
    case _ => None
  }

  function OpenSkyInterval(credential: Option<(bool, bool)>, poll: Option<nat>): nat {
    match poll
    case Some(asked) => asked
    case None => if credential.Some? then AUTHENTICATED_INTERVAL else ANONYMOUS_INTERVAL
  }

  /** The interval each kind of source is configured with when it opens; a replay's is nothing at all. */
  function Configured(source: Source): nat {
    match source
    case Replay => 0
    case Readsb(poll) => ToStd(Some(poll)).GetOr(READSB_POLL)
    case Aggregator(provider, _, _) => AggregatorInterval(provider, Poll(source))
    case OpenSky(hasId, hasSecret, _, _) => OpenSkyInterval(Credential(hasId, hasSecret), Poll(source))
  }

  /**
   * A file's wait is checked against the interval its source will have: what `OpensAt` predicts is what opening
   * computes, for every source that has a wait to check.
   */
  lemma WaitsAreCheckedAgainstTheIntervalOpenedAt(source: Source)
    ensures OpensAt(source).Some? ==> OpensAt(source).value == Configured(source)
    ensures ProbeMaxWait(source).Some? ==> OpensAt(source).Some?
    ensures !HasProblem(source) && ProbeMaxWait(source).Some? ==>
              IsInRange(ProbeMaxWait(source).value, Configured(source))
  {
  }

  /** A wait is usable when it spans a clean run of polls and no more than a day. */
  predicate IsInRange(wait: nat, configured: nat) {
    CLEAN_RUN * configured <= wait <= LONGEST_MAX_WAIT
  }

  /** Whether the file's own wait is refused when it is read. */
  predicate HasProblem(source: Source) {
    ProbeMaxWait(source).Some? && OpensAt(source).Some?
    && !IsInRange(ProbeMaxWait(source).value, OpensAt(source).value)
  }

  /** The wait the file asks for, and where that came from. */
  function ProbeMaxWaitIn(settings: Settings): (nat, From) {
    match ProbeMaxWait(settings.source)
    case None => (DEFAULT_PROBE_MAX_WAIT, Default)
    case Some(wait) => (wait, File)
  }

  /** The server's document, as far as it could be read. */
  datatype Document = Document(area: Option<Area>, symbology: Option<Symbology>, minutes: Option<nat>)

  function ServerWait(document: Document): Option<nat> {
    match document.minutes
    case None => None
    case Some(minutes) => Some(minutes * 60 * SECOND)
  }

  /** Whether validating a readable document raises an issue about its wait; before a source is open, one second counts. */
  predicate RaisesWaitIssue(document: Document, configured: Option<nat>) {
    ServerWait(document).Some? && !IsInRange(ServerWait(document).value, configured.GetOr(SECOND))
  }

  // ---- in numbers ----

  /** What a file asks of a source: an interval, if the source has one to ask for. */
  function Asked(source: Source): Option<int> {
    match source
    case Replay => None
    case Readsb(poll) => Some(poll)
    case Aggregator(_, asked, _) => asked
    case OpenSky(_, _, asked, _) => asked
  }

  /**
   * What a source is configured with, in milliseconds: what was asked, except that an aggregator is never asked twice
   * within two seconds; and where nothing or a negative span was asked, its own default.
   */
  lemma IntervalsInMilliseconds(source: Source)
    ensures source.Replay? ==> Configured(source) == 0
    ensures Asked(source).Some? && Asked(source).value >= 0 ==>
              if source.Aggregator? && Asked(source).value < 2_000 then Configured(source) == 2_000
              else Configured(source) == Asked(source).value
    ensures !source.Replay? && (Asked(source).Some? ==> Asked(source).value < 0) ==>
              match source
              case Replay => true
              case Readsb(_) => Configured(source) == 1_000
              case Aggregator(provider, _, _) => Configured(source) == if provider == AdsbFi then 5_000 else 10_000
              case OpenSky(id, secret, _, _) => Configured(source) == if id && secret then 5_000 else 10_000
  {
  }

  /** The wait a file names: an aggregator's or OpenSky's, unless it is negative. */
  function FileWait(source: Source): Option<int> {
    match source
    case Replay => None
    case Readsb(_) => None
    case Aggregator(_, _, wait) => wait
    case OpenSky(_, _, _, wait) => wait
  }

  /** A usable wait spans sixty polls and no more than a day. */
  predicate SpansARunAndNoDay(wait: int, configured: int) {
    60 * configured <= wait && wait <= 24 * 60 * 60 * 1000
  }

  /**
   * A file is refused exactly for a wait it names that spans fewer than sixty polls or more than a day; with none, three
   * hours stand. A document's minutes are sixty seconds each, and raise an issue by the same bounds, taken at one second
   * while no source is open.
   */
  lemma WaitsInMilliseconds(settings: Settings, document: Document, configured: Option<nat>)
    ensures
      var named := FileWait(settings.source).Some? && FileWait(settings.source).value >= 0;
      && (HasProblem(settings.source) <==>
            named && !SpansARunAndNoDay(FileWait(settings.source).value, Configured(settings.source)))
      && ProbeMaxWaitIn(settings) == if named then (FileWait(settings.source).value, File) else (10_800_000, Default)
    ensures RaisesWaitIssue(document, configured) <==>
            document.minutes.Some?
            && !SpansARunAndNoDay(60_000 * document.minutes.value, if configured.Some? then configured.value else 1_000)
  {
  }
}
