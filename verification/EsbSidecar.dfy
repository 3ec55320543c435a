/** The ESB sidecar: one source, one publisher, and the area they are watching. */
module EsbSidecars {
  import opened Wrappers
  import opened FeedSettings
  import Outages

  datatype Source = Replay | PowerCheck

  datatype Settings = Settings(area: Area, kinds: seq<Outages.OutageKind>, source: Source)

  /** What is watched: an area, compared here and never evaluated, and the kinds the file includes. */
  datatype Watching = Watching(area: Area, kinds: seq<Outages.OutageKind>)

  /** An open source: a replay has no scope of its own to move. */
  datatype Feed = ReplayFeed | PowerCheckFeed(scope: Watching)

  datatype State = State(
    settings: Settings,
    feed: Option<Feed>,
    publisher: Option<Watching>,
    area: Area,
    areaFrom: From)

  /** What asking the server for its document came to. */
  datatype Answer =
    | Nothing            // no document it has not answered already
    | NoArea             // a document whose `area` is absent or null
    | UnreadableArea     // one whose `area` this build cannot read
    | Named(area: Area)

  /** The area an answer puts into effect, if it does. */
  function ConfiguredArea(settings: Settings, answer: Answer): Option<(Area, From)> {
    match answer
    case Nothing => None
    case NoArea => Some((settings.area, File))
    case UnreadableArea => None
    case Named(area) => Some((area, Server))
  }

  function OpenedFeed(source: Source, scope: Watching): Feed {
    match source
    case Replay => ReplayFeed
    case PowerCheck => PowerCheckFeed(scope)
  }

  function Rescoped(feed: Feed, scope: Watching): Feed {
    match feed
    case ReplayFeed => feed
    case PowerCheckFeed(_) => PowerCheckFeed(scope)
  }

  function Started(settings: Settings, answer: Answer): State {
    var (area, from) := ConfiguredArea(settings, answer).GetOr((settings.area, File));
    var scope := Watching(area, settings.kinds);
    State(settings, Some(OpenedFeed(settings.source, scope)), Some(scope), area, from)
  }

  /** Moves the source and the publisher onto `area`. */
  function Applied(s: State, area: Area, from: From): State {
    var scope := Watching(area, s.settings.kinds);
    s.(feed := match s.feed case None => None case Some(feed) => Some(Rescoped(feed, scope)),
       publisher := match s.publisher case None => None case Some(_) => Some(scope),
       area := area, areaFrom := from)
  }

  function Ticked(s: State, answer: Answer): State {
    match ConfiguredArea(s.settings, answer)
    case None => s
    case Some((area, from)) => if (area, from) == (s.area, s.areaFrom) then s else Applied(s, area, from)
  }

  class EsbSidecar {
    var settings: Settings
    var feed: Option<Feed>
    var publisher: Option<Watching>
    var area: Area
    var areaFrom: From

    ghost function Contents(): State
      reads this
    {
      State(settings, feed, publisher, area, areaFrom)
    }

    constructor (settings: Settings)
      ensures this.settings == settings && feed == None && publisher == None
    {
      this.settings, feed, publisher, area, areaFrom := settings, None, None, settings.area, File;
    }

    /** Opens the source, which may refuse, and the publisher. */
    method Start(answer: Answer, opens: bool) returns (ok: bool)
      modifies this
      ensures ok == opens
      ensures Contents() == if opens then Started(old(settings), answer) else old(Contents())
    {
      var (from, origin) := ConfiguredArea(settings, answer).GetOr((settings.area, File));
      var scope := Watching(from, settings.kinds);
      if !opens {
        return false;
      }
      feed := Some(OpenedFeed(settings.source, scope));
      publisher := Some(scope);
      area, areaFrom := from, origin;
      ok := true;
    }

    method ApplyArea(area: Area, from: From)
      modifies this
      ensures Contents() == Applied(old(Contents()), area, from)
    {
      var scope := Watching(area, settings.kinds);
      if feed.Some? {
        feed := Some(Rescoped(feed.value, scope));
      }
      if publisher.Some? {
        publisher := Some(scope);
      }
      this.area, areaFrom := area, from;
    }

    method TickAt(answer: Answer)
      modifies this
      ensures Contents() == Ticked(old(Contents()), answer)
    {
      var configured := ConfiguredArea(settings, answer);
      if configured.Some? && configured.value != (area, areaFrom) {
        ApplyArea(configured.value.0, configured.value.1);
      }
    }
  }

  // ---- runs ----

  /** A sidecar that started on one answer and ticked on each of the others. */
  function Run(settings: Settings, first: Answer, answers: seq<Answer>): State {
    if answers == [] then Started(settings, first)
    else Ticked(Run(settings, first, answers[..|answers| - 1]), answers[|answers| - 1])
  }

  /** Source and publisher watch the area on record, with the kinds the file includes. */
  predicate IsReconciled(s: State) {
    && s.publisher == Some(Watching(s.area, s.settings.kinds))
    && s.feed == Some(match s.settings.source
                      case Replay => ReplayFeed
                      case PowerCheck => PowerCheckFeed(Watching(s.area, s.settings.kinds)))
    && (s.areaFrom.File? ==> s.area == s.settings.area)
  }

  /** The last answer that says anything readable about the area; with none, as if a document had named none. */
  function LastDecisive(answers: seq<Answer>): Answer {
    if answers == [] then NoArea
    else
      var last := answers[|answers| - 1];
      if last.NoArea? || last.Named? then last else LastDecisive(answers[..|answers| - 1])
  }

  /**
   * Over every run both scopes are the area on record, and the area on record is what the last decisive answer said:
   * the file's when that named no area, the document's when it named a readable one; unreadable ones change nothing.
   */
  lemma {:induction false} TheAreaIsWhatTheLastDocumentSaid(settings: Settings, first: Answer, answers: seq<Answer>)
    ensures
      var s := Run(settings, first, answers);
      var last := LastDecisive([first] + answers);
      && s.settings == settings && IsReconciled(s)
      && (s.area, s.areaFrom) == (if last.Named? then (last.area, Server) else (settings.area, File))
  {
    var all := [first] + answers;
    if answers == [] {
      assert all[..|all| - 1] == [];
    } else {
      TheAreaIsWhatTheLastDocumentSaid(settings, first, answers[..|answers| - 1]);
      assert all[..|all| - 1] == [first] + answers[..|answers| - 1];
    }
  }
}
