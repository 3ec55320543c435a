/** The ADS-B sidecar: one source, one publisher, and the settings in effect, from a file, a default and a server. */
module AdsbSidecars {
  import opened Wrappers
  import opened FeedSettings
  import opened AdsbSettings

  /** An open source: what it subscribed with, what it was configured with, and the wait it goes by. */
  datatype Feed = Feed(area: Area, configured: nat, wait: nat)

  datatype Publisher = Publisher(area: Area, symbology: Symbology)

  datatype State = State(
    settings: Settings,
    feed: Option<Feed>,
    publisher: Option<Publisher>,
    area: Area,
    areaFrom: From,
    symbology: Symbology,
    wait: nat,
    waitFrom: From)

  /** What opening the file's source for `area` gives. */
  function Opened(source: Source, area: Area): Feed {
    Feed(area, Configured(source), ProbeMaxWait(source).GetOr(DEFAULT_PROBE_MAX_WAIT))
  }

  /** Opens source and publisher for `area`, or fails and leaves both as they were. */
  function Watched(s: State, area: Area, from: From, opens: bool): State {
    if !opens then s
    else
      var feed := Opened(s.settings.source, area);
      s.(feed := Some(if s.wait != 0 then feed.(wait := s.wait) else feed),
         publisher := Some(Publisher(area, s.symbology)), area := area, areaFrom := from)
  }

  function Marked(s: State, symbology: Symbology): State {
    s.(symbology := symbology,
       publisher := match s.publisher
                    case None => None
                    case Some(p) => Some(if symbology == s.symbology then p else p.(symbology := symbology)))
  }

  function Wanted(settings: Settings, fromServer: Option<nat>): (nat, From) {
    match fromServer
    case Some(wait) => (wait, Server)
    case None => ProbeMaxWaitIn(settings)
  }

  /** Puts a wait into effect in the open source, unless it is out of range or already the one in effect. */
  function Waited(s: State, fromServer: Option<nat>): State {
    var (wait, from) := Wanted(s.settings, fromServer);
    match s.feed
    case None => s
    case Some(feed) =>
      if !IsInRange(wait, feed.configured) || (wait, from) == (s.wait, s.waitFrom) then s
      else s.(feed := Some(feed.(wait := wait)), wait := wait, waitFrom := from)
  }

  /** The sidecar as `start` begins it, before the source is opened. */
  function Begun(settings: Settings, document: Option<Document>): State {
    var (wait, from) := ProbeMaxWaitIn(settings);
    var symbology := if document.Some? then document.value.symbology.GetOr(settings.symbology) else settings.symbology;
    State(settings, None, None, settings.area, File, symbology, wait, from)
  }

  function AreaNamed(document: Option<Document>): Option<Area> {
    if document.Some? then document.value.area else None
  }

  function WaitNamed(document: Option<Document>): Option<nat> {
    if document.Some? then ServerWait(document.value) else None
  }

  /** Starting, with whatever document the server could be read for; a source that will not open refuses. */
  function Started(settings: Settings, document: Option<Document>, opens: bool): State {
    var s := Begun(settings, document);
    var named := AreaNamed(document);
    var t := if named.Some? && named.value != s.area then Watched(s, named.value, Server, opens)
             else Watched(s, s.area, File, opens);
    if opens then Waited(t, WaitNamed(document)) else t
  }

  /** One tick's configuration: a document when there is a new readable one, and whether a source would open. */
  function Ticked(s: State, document: Option<Document>, opens: bool): State {
    match document
    case None => s
    case Some(d) =>
      var marked := Marked(s, d.symbology.GetOr(s.settings.symbology));
      var watched := if d.area.Some? && d.area.value != marked.area
                     then Watched(marked, d.area.value, Server, opens) else marked;
      Waited(watched, ServerWait(d))
  }

  class AdsbSidecar {
    var settings: Settings
    var feed: Option<Feed>
    var publisher: Option<Publisher>
    var area: Area
    var areaFrom: From
    var symbology: Symbology
    var wait: nat
    var waitFrom: From

    ghost function Contents(): State
      reads this
    {
      State(settings, feed, publisher, area, areaFrom, symbology, wait, waitFrom)
    }

    /** A sidecar that has been given its settings and has not started. */
    constructor (settings: Settings)
      ensures this.settings == settings && feed == None && publisher == None
    {
      this.settings, feed, publisher := settings, None, None;
      area, areaFrom, symbology, wait, waitFrom := settings.area, File, settings.symbology, 0, Default;
    }

    method Watch(area: Area, from: From, opens: bool) returns (ok: bool)
      modifies this
      ensures Contents() == Watched(old(Contents()), area, from, opens) && ok == opens
    {
      if !opens {
        return false;
      }
      var source := Opened(settings.source, area);
      if wait != 0 {
        source := source.(wait := wait);
      }
      feed := Some(source);
      publisher := Some(Publisher(area, symbology));
      this.area := area;
      areaFrom := from;
      ok := true;
    }

    method ApplySymbology(symbology: Symbology)
      modifies this
      ensures Contents() == Marked(old(Contents()), symbology)
    {
      if symbology == this.symbology {
        return;
      }
      this.symbology := symbology;
      if publisher.Some? {
        publisher := Some(publisher.value.(symbology := symbology));
      }
    }

    method ApplyProbeMaxWait(fromServer: Option<nat>)
      modifies this
      ensures Contents() == Waited(old(Contents()), fromServer)
    {
      var (wanted, from) := Wanted(settings, fromServer);
      if feed.None? || !IsInRange(wanted, feed.value.configured) {
        return;
      }
      if (wanted, from) == (wait, waitFrom) {
        return;
      }
      feed := Some(feed.value.(wait := wanted));
      wait := wanted;
      waitFrom := from;
    }

    method Start(document: Option<Document>, opens: bool) returns (ok: bool)
      requires feed == None && publisher == None
      modifies this
      ensures Contents() == Started(old(settings), document, opens) && ok == opens
    {
      area, areaFrom := settings.area, File;
      symbology := settings.symbology;
      var (initial, from) := ProbeMaxWaitIn(settings);
      wait, waitFrom := initial, from;
      if document.Some? && document.value.symbology.Some? {
        symbology := document.value.symbology.value;
      }
      var named := AreaNamed(document);
      if named.Some? && named.value != area {
        ok := Watch(named.value, Server, opens);
      } else {
        ok := Watch(area, File, opens);
      }
      if ok {
        ApplyProbeMaxWait(WaitNamed(document));
      }
    }

    method Tick(document: Option<Document>, opens: bool)
      modifies this
      ensures Contents() == Ticked(old(Contents()), document, opens)
    {
      if document.None? {
        return;
      }
      ApplySymbology(document.value.symbology.GetOr(settings.symbology));
      if document.value.area.Some? && document.value.area.value != area {
        var _ := Watch(document.value.area.value, Server, opens);
      }
      ApplyProbeMaxWait(ServerWait(document.value));
    }
  }
}
