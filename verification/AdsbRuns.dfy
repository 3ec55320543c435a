/** Every run of the ADS-B sidecar's configuration: whatever documents arrive and whichever sources fail to open. */
module AdsbRuns {
  import opened Wrappers
  import opened FeedSettings
  import opened AdsbSettings
  import opened AdsbSidecars

  /** One tick: a new readable document or none, and whether a source would open. */
  datatype Tick = Tick(document: Option<Document>, opens: bool)

  /** A sidecar that started, and then ticked. */
  function Run(settings: Settings, document: Option<Document>, ticks: seq<Tick>): State {
    if ticks == [] then Started(settings, document, true)
    else
      var last := ticks[|ticks| - 1];
      Ticked(Run(settings, document, ticks[..|ticks| - 1]), last.document, last.opens)
  }

  // ---- the copies of each setting ----

  /** Source, publisher and record say the same, and no wait is in effect that validation would refuse. */
  predicate IsReconciled(s: State) {
    && s.feed.Some? && s.publisher.Some?
    && s.feed.value.area == s.publisher.value.area == s.area
    && s.publisher.value.symbology == s.symbology
    && s.feed.value.configured == Configured(s.settings.source)
    && (s.areaFrom.File? ==> s.area == s.settings.area) && !s.areaFrom.Default?
    && match s.waitFrom
       case Default => s.wait == DEFAULT_PROBE_MAX_WAIT && ProbeMaxWait(s.settings.source).None?
       case File => ProbeMaxWait(s.settings.source) == Some(s.wait) && IsInRange(s.wait, s.feed.value.configured)
       case Server => IsInRange(s.wait, s.feed.value.configured)
  }

  lemma TickReconciles(s: State, tick: Tick)
    requires IsReconciled(s) && !HasProblem(s.settings.source)
    ensures IsReconciled(Ticked(s, tick.document, tick.opens))
    ensures Ticked(s, tick.document, tick.opens).settings == s.settings
  {
  }

  /** Over every run, area, symbology and source agree, and a wait from the file or the server is one the source can use. */
  lemma {:induction false} SettingsNeverDisagree(settings: Settings, document: Option<Document>, ticks: seq<Tick>)
    requires !HasProblem(settings.source)
    ensures IsReconciled(Run(settings, document, ticks)) && Run(settings, document, ticks).settings == settings
  {
    if ticks != [] {
      SettingsNeverDisagree(settings, document, ticks[..|ticks| - 1]);
      TickReconciles(Run(settings, document, ticks[..|ticks| - 1]), ticks[|ticks| - 1]);
    }
  }

  /** So in numbers: whatever arrives, a wait that was chosen spans sixty polls and at most a day, and the default three hours. */
  lemma WaitsInEffectAreUsable(settings: Settings, document: Option<Document>, ticks: seq<Tick>)
    requires !HasProblem(settings.source)
    ensures
      var s := Run(settings, document, ticks);
      && s.feed.Some?
      && (!s.waitFrom.Default? ==> 60 * s.feed.value.configured <= s.wait <= 86_400_000)
      && (s.waitFrom.Default? ==> s.wait == 10_800_000)
  {
    SettingsNeverDisagree(settings, document, ticks);
  }

  /** A source that will not open leaves the sidecar without one, on the file's area and wait. */
  lemma ARefusedStartOpensNothing(settings: Settings, document: Option<Document>)
    ensures
      var s := Started(settings, document, false);
      && s.feed == None && s.publisher == None && s.area == settings.area && s.areaFrom == File
      && (s.wait, s.waitFrom) == ProbeMaxWaitIn(settings)
  {
  }

  // ---- the probe wait the source goes by ----

  /** What a newly opened source would wait, left to itself. */
  function WaitWhenOpened(source: Source): nat {
    ProbeMaxWait(source).GetOr(DEFAULT_PROBE_MAX_WAIT)
  }

  /** Whether a recorded wait of zero, which is not put back into a source opened again, can do no harm. */
  predicate ZeroIsHarmless(source: Source) {
    Configured(source) > 0 || WaitWhenOpened(source) == 0
  }

  /** Some other area. */
  function Elsewhere(area: Area): (other: Area)
    ensures other != area
  {
    match area
    case Bbox(south, west, north, east) => Bbox(south + 1.0, west, north, east)
    case Circle(lat, lon, radiusKm) => Circle(lat + 1.0, lon, radiusKm)
  }

  /** An administrator's zero, and then a move to another area. */
  function ZeroThenMove(settings: Settings): seq<Tick> {
    [Tick(Some(Document(None, None, Some(0))), true)]
    + [Tick(Some(Document(Some(Elsewhere(settings.area)), None, Some(0))), true)]
  }

  /**
   * The source goes by the wait on record over every run exactly when the source polls at an interval, or would open at
   * no wait anyway. For any other, a zero from the server is lost as soon as the area moves.
   */
  lemma {:induction false} SourceGoesByTheRecordedWait(settings: Settings, document: Option<Document>, ticks: seq<Tick>)
    requires !HasProblem(settings.source)
    ensures ZeroIsHarmless(settings.source) ==>
              var s := Run(settings, document, ticks);
              s.feed.Some? && s.feed.value.wait == s.wait
    ensures !ZeroIsHarmless(settings.source) ==>
              var s := Run(settings, None, ZeroThenMove(settings));
              s.feed.Some? && s.wait == 0 && s.feed.value.wait == WaitWhenOpened(settings.source) != 0
  {
    if !ZeroIsHarmless(settings.source) {
      ZeroIsLost(settings);
    } else if ticks != [] {
      var before := ticks[..|ticks| - 1];
      SourceGoesByTheRecordedWait(settings, document, before);
      SettingsNeverDisagree(settings, document, before);
    }
  }

  lemma ZeroIsLost(settings: Settings)
    requires !HasProblem(settings.source) && !ZeroIsHarmless(settings.source)
    ensures
      var s := Run(settings, None, ZeroThenMove(settings));
      s.feed.Some? && s.wait == 0 && s.feed.value.wait == WaitWhenOpened(settings.source) != 0
  {
    var ticks := ZeroThenMove(settings);
    assert [] + [ticks[0]] == [ticks[0]];
    RunTick(settings, None, [], ticks[0]);
    RunTick(settings, None, [ticks[0]], ticks[1]);
    var zeroed := Run(settings, None, [ticks[0]]);
    assert zeroed.wait == 0 && zeroed.waitFrom == Server && zeroed.area == settings.area;
  }

  lemma RunTick(settings: Settings, document: Option<Document>, ticks: seq<Tick>, tick: Tick)
    ensures Run(settings, document, ticks + [tick])
            == Ticked(Run(settings, document, ticks), tick.document, tick.opens)
  {
    assert (ticks + [tick])[..|ticks|] == ticks;
  }

  // ---- what is in effect, from the documents alone ----

  /** The area of the last tick that named one and could open it. */
  function LastOpened(ticks: seq<Tick>): Option<Area> {
    if ticks == [] then None
    else
      var last := ticks[|ticks| - 1];
      if last.opens && AreaNamed(last.document).Some? then AreaNamed(last.document)
      else LastOpened(ticks[..|ticks| - 1])
  }

  function LastDocument(document: Option<Document>, ticks: seq<Tick>): Option<Document> {
    if ticks == [] then document
    else
      var last := ticks[|ticks| - 1];
      if last.document.Some? then last.document else LastDocument(document, ticks[..|ticks| - 1])
  }

  /** The wait the last document wanted, counting only documents that wanted one the source could use. */
  function LastUsable(settings: Settings, document: Option<Document>, ticks: seq<Tick>): (nat, From) {
    if ticks == [] then
      var first := Wanted(settings, WaitNamed(document));
      if IsInRange(first.0, Configured(settings.source)) then first else ProbeMaxWaitIn(settings)
    else
      var last := ticks[|ticks| - 1];
      var wanted := Wanted(settings, WaitNamed(last.document));
      if last.document.Some? && IsInRange(wanted.0, Configured(settings.source)) then wanted
      else LastUsable(settings, document, ticks[..|ticks| - 1])
  }

  lemma TickFolds(s: State, tick: Tick)
    requires IsReconciled(s)
    ensures
      var t := Ticked(s, tick.document, tick.opens);
      var named := AreaNamed(tick.document);
      var wanted := Wanted(s.settings, WaitNamed(tick.document));
      && t.area == (if tick.opens && named.Some? then named.value else s.area)
      && t.symbology == (if tick.document.Some? then tick.document.value.symbology.GetOr(s.settings.symbology)
                         else s.symbology)
      && (t.wait, t.waitFrom) == (if tick.document.Some? && IsInRange(wanted.0, Configured(s.settings.source))
                                  then wanted else (s.wait, s.waitFrom))
  {
  }

  lemma {:induction false} AreaIsTheLastThatOpened(settings: Settings, document: Option<Document>, ticks: seq<Tick>)
    ensures
      var s := Run(settings, document, ticks);
      s.area == LastOpened(ticks).GetOr(AreaNamed(document).GetOr(settings.area))
  {
    if ticks != [] {
      AreaIsTheLastThatOpened(settings, document, ticks[..|ticks| - 1]);
    }
  }

  /** Every area that was named and opened is the file's own. */
  predicate OnlyTheFilesArea(settings: Settings, document: Option<Document>, ticks: seq<Tick>) {
    && (document.Some? && document.value.area.Some? ==> document.value.area.value == settings.area)
    && forall i :: 0 <= i < |ticks| && ticks[i].opens && ticks[i].document.Some? && ticks[i].document.value.area.Some? ==>
                     ticks[i].document.value.area.value == settings.area
  }

  /** The area is said to be the file's exactly as long as no other has been opened, and the server's from then on. */
  lemma {:induction false} AreaIsTheServersOnceMoved(settings: Settings, document: Option<Document>, ticks: seq<Tick>)
    requires !HasProblem(settings.source)
    ensures
      var s := Run(settings, document, ticks);
      s.areaFrom == if OnlyTheFilesArea(settings, document, ticks) then File else Server
  {
    if ticks != [] {
      var front := ticks[..|ticks| - 1];
      AreaIsTheServersOnceMoved(settings, document, front);
      SettingsNeverDisagree(settings, document, front);
      assert OnlyTheFilesArea(settings, document, ticks) ==> OnlyTheFilesArea(settings, document, front);
      assert ticks == front + [ticks[|ticks| - 1]];
    }
  }

  /**
   * The area is the last one named that opened, the edition the last document's or the file's, the wait the last one the
   * source could use. A document that drops its edition or a usable wait gives the choice back; one that drops its area
   * does not.
   */
  lemma {:induction false} SettingsAreFoldsOfTheDocuments(
    settings: Settings, document: Option<Document>, ticks: seq<Tick>)
    requires !HasProblem(settings.source)
    ensures
      var s := Run(settings, document, ticks);
      var latest := LastDocument(document, ticks);
      && s.area == LastOpened(ticks).GetOr(AreaNamed(document).GetOr(settings.area))
      && s.symbology == (if latest.Some? then latest.value.symbology.GetOr(settings.symbology) else settings.symbology)
      && (s.wait, s.waitFrom) == LastUsable(settings, document, ticks)
  {
    SettingsNeverDisagree(settings, document, ticks);
    if ticks != [] {
      var before := ticks[..|ticks| - 1];
      SettingsNeverDisagree(settings, document, before);
      SettingsAreFoldsOfTheDocuments(settings, document, before);
      TickFolds(Run(settings, document, before), ticks[|ticks| - 1]);
    }
  }

  /**
   * A document without an area gives the choice back to the file exactly when the area never left the file's: the last
   * area that opened, or the one the sidecar started on, is the file's own.
   */
  lemma DroppingTheAreaKeepsIt(
    settings: Settings, document: Option<Document>, ticks: seq<Tick>, d: Document, opens: bool)
    requires d.area.None?
    ensures
      var s := Run(settings, document, ticks);
      var t := Run(settings, document, ticks + [Tick(Some(d), opens)]);
      && t.area == s.area && t.areaFrom == s.areaFrom
      && (t.area == settings.area <==>
            LastOpened(ticks).GetOr(AreaNamed(document).GetOr(settings.area)) == settings.area)
  {
    RunTick(settings, document, ticks, Tick(Some(d), opens));
    AreaIsTheLastThatOpened(settings, document, ticks);
  }

  /** An area named once stays in effect after the document that named it is emptied. */
  lemma AnAreaIsNotGivenBack(settings: Settings)
    ensures
      var ticks := [Tick(Some(Document(Some(Elsewhere(settings.area)), None, None)), true)]
                   + [Tick(Some(Document(None, None, None)), true)];
      Run(settings, None, ticks).area == Elsewhere(settings.area) != settings.area
  {
    var named := [Tick(Some(Document(Some(Elsewhere(settings.area)), None, None)), true)];
    assert [] + named == named;
    RunTick(settings, None, [], named[0]);
    DroppingTheAreaKeepsIt(settings, None, named, Document(None, None, None), true);
  }

  /**
   * A document without a wait gives the choice back to the file exactly when the file's choice is one the source can use,
   * or is in effect already.
   */
  lemma DroppingTheWaitGivesItBack(
    settings: Settings, document: Option<Document>, ticks: seq<Tick>, d: Document, opens: bool)
    requires !HasProblem(settings.source) && d.minutes.None?
    ensures
      var s := Run(settings, document, ticks);
      var t := Run(settings, document, ticks + [Tick(Some(d), opens)]);
      && ((t.wait, t.waitFrom) == ProbeMaxWaitIn(settings)
          <==> IsInRange(ProbeMaxWaitIn(settings).0, Configured(settings.source))
               || (s.wait, s.waitFrom) == ProbeMaxWaitIn(settings))
      && ((t.wait, t.waitFrom) != ProbeMaxWaitIn(settings) ==> (t.wait, t.waitFrom) == (s.wait, s.waitFrom))
  {
    RunTick(settings, document, ticks, Tick(Some(d), opens));
    SettingsAreFoldsOfTheDocuments(settings, document, ticks + [Tick(Some(d), opens)]);
    SettingsAreFoldsOfTheDocuments(settings, document, ticks);
  }

  /** A receiver read every five minutes never gets its default of three hours back once the server has said six. */
  lemma AWaitIsNotGivenBack(area: Area, symbology: Symbology)
    ensures
      var settings := Settings(area, symbology, Readsb(300 * SECOND));
      var ticks := [Tick(Some(Document(None, None, Some(360))), true)] + [Tick(Some(Document(None, None, None)), true)];
      var s := Run(settings, None, ticks);
      && (s.wait, s.waitFrom) == (6 * 3_600 * SECOND, Server)
      && ProbeMaxWaitIn(settings) == (DEFAULT_PROBE_MAX_WAIT, Default)
  {
    var settings := Settings(area, symbology, Readsb(300 * SECOND));
    var raised := [Tick(Some(Document(None, None, Some(360))), true)];
    assert [] + raised == raised;
    RunTick(settings, None, [], raised[0]);
    RunTick(settings, None, raised, Tick(Some(Document(None, None, None)), true));
  }

  /**
   * Validation agrees with application: a readable document raises an issue about its wait exactly when a tick applying
   * it keeps the wait already in effect instead.
   */
  lemma ValidationAgreesWithApplication(
    settings: Settings, document: Option<Document>, ticks: seq<Tick>, d: Document, opens: bool)
    requires !HasProblem(settings.source) && d.minutes.Some?
    ensures
      var s := Run(settings, document, ticks);
      var t := Run(settings, document, ticks + [Tick(Some(d), opens)]);
      var issue := s.feed.Some? && RaisesWaitIssue(d, Some(s.feed.value.configured));
      && (issue <==> (t.wait, t.waitFrom) != (60_000 * d.minutes.value, Server))
      && (issue <==> !SpansARunAndNoDay(60_000 * d.minutes.value, Configured(settings.source)))
      && (issue ==> (t.wait, t.waitFrom) == (s.wait, s.waitFrom))
  {
    var more := ticks + [Tick(Some(d), opens)];
    assert more[..|ticks|] == ticks;
    SettingsNeverDisagree(settings, document, ticks);
    SettingsAreFoldsOfTheDocuments(settings, document, more);
    SettingsAreFoldsOfTheDocuments(settings, document, ticks);
  }
}
