/** AIS reports on one side, tracks on the other. */
module AisMapping {
  import opened Wrappers
  import opened Decimals

  type U8 = x: int | 0 <= x < 0x100 witness 0
  type U16 = x: int | 0 <= x < 0x1_0000 witness 0
  type U32 = x: int | 0 <= x < 0x1_0000_0000 witness 0

  /** The identifier every AIS message carries. */
  type Mmsi = U32

  datatype Position = Position(
    mmsi: Mmsi,
    lat: real,
    lon: real,
    sogKnots: Option<real>,
    cogDeg: Option<real>,
    headingDeg: Option<real>,
    navStatus: Option<U8>,
    observedAt: int)

  datatype Dimensions = Dimensions(toBow: U16, toStern: U16, toPort: U16, toStarboard: U16)

  datatype StaticData = StaticData(
    mmsi: Mmsi,
    name: Option<string>,
    callSign: Option<string>,
    imo: Option<U32>,
    shipType: Option<U8>,
    destination: Option<string>,
    eta: Option<string>,
    dimensions: Option<Dimensions>)

  datatype VesselClass = Fishing | Military | Leisure | LawEnforcement | Merchant | Other

  /** One `key: value` line under a hull. */
  type Remark = (string, string)

  datatype Track = Track(
    id: string,
    kind: VesselClass,
    position: (real, real),
    observedAt: int,
    speedMps: Option<real>,
    courseDeg: Option<real>,
    headingDeg: Option<real>,
    callsign: Option<string>,
    remarks: seq<Remark>)

  const STATUS_REMARK := "Status"

  /** Whether a map can show this; AIS spells "no fix" as latitude 91 and longitude 181. */
  predicate IsUsable(p: Position) {
    -90.0 <= p.lat <= 90.0 && -180.0 <= p.lon <= 180.0
  }

  function LengthM(d: Dimensions): nat { d.toBow + d.toStern }

  function BeamM(d: Dimensions): nat { d.toPort + d.toStarboard }

  predicate IsKnown(d: Dimensions) { LengthM(d) > 0 || BeamM(d) > 0 }

  function Id(mmsi: Mmsi): string { "AIS-" + Decimal(mmsi) }

  function Filtered(raw: Option<real>, below: real): Option<real> {
    if raw.Some? && 0.0 <= raw.value < below then raw else None
  }

  function Heading(raw: Option<real>): Option<real> {
    if Filtered(raw, 511.0).Some? && raw.value <= 359.0 then raw else None
  }

  function Course(raw: Option<real>): Option<real> { Filtered(raw, 360.0) }

  function SpeedMps(knots: Option<real>): Option<real> {
    match Filtered(knots, 102.3)
    case None => None
    case Some(value) => Some(value * 0.5144444444444444)
  }

  function ClassOf(shipType: U8): VesselClass {
    if shipType == 30 then Fishing
    else if shipType == 35 then Military
    else if shipType == 36 || shipType == 37 then Leisure
    else if shipType == 55 then LawEnforcement
    else if 60 <= shipType <= 89 then Merchant
    else Other
  }

  function ShipTypeWord(code: U8): string {
    if 20 <= code <= 29 then "wing in ground"
    else if code == 30 then "fishing"
    else if code == 31 || code == 32 then "towing"
    else if code == 33 then "dredging or underwater operations"
    else if code == 34 then "diving operations"
    else if code == 35 then "military operations"
    else if code == 36 then "sailing"
    else if code == 37 then "pleasure craft"
    else if 40 <= code <= 49 then "high-speed craft"
    else if code == 50 then "pilot vessel"
    else if code == 51 then "search and rescue"
    else if code == 52 then "tug"
    else if code == 53 then "port tender"
    else if code == 54 then "anti-pollution equipment"
    else if code == 55 then "law enforcement"
    else if code == 58 then "medical transport"
    else if code == 59 then "non-combatant"
    else if 60 <= code <= 69 then "passenger"
    else if 70 <= code <= 79 then "cargo"
    else if 80 <= code <= 89 then "tanker"
    else if 90 <= code <= 99 then "other"
    else "unknown"
  }

  function NavStatusWord(code: U8): string {
    if code == 0 then "under way using engine"
    else if code == 1 then "at anchor"
    else if code == 2 then "not under command"
    else if code == 3 then "restricted manoeuvrability"
    else if code == 4 then "constrained by draught"
    else if code == 5 then "moored"
    else if code == 6 then "aground"
    else if code == 7 then "engaged in fishing"
    else if code == 8 then "under way sailing"
    else if code == 11 then "under tow astern"
    else if code == 12 then "pushing ahead or towing alongside"
    else if code == 14 then "AIS-SART, MOB-AIS or EPIRB-AIS is active"
    else "not defined"
  }

  /** At anchor, moored, aground. */
  predicate IsStationaryStatus(code: U8) { code == 1 || code == 5 || code == 6 }

  /** Whether a published track is one of those, read back out of its remarks. */
  predicate IsStationary(track: Track) {
    exists i :: 0 <= i < |track.remarks| && SaysStationary(track.remarks[i])
  }

  predicate SaysStationary(remark: Remark) {
    remark.0 == STATUS_REMARK
    && (remark.1 == NavStatusWord(1) || remark.1 == NavStatusWord(5) || remark.1 == NavStatusWord(6))
  }

  function Line(key: string, value: Option<string>): seq<Remark> {
    match value
    case None => []
    case Some(text) => [(key, text)]
  }

  /** What the vessel itself said before its status, in order. */
  function LinesBeforeStatus(statics: Option<StaticData>): seq<Remark> {
    match statics
    case None => []
    case Some(s) =>
      Line("Call sign", s.callSign)
      + Line("IMO", if s.imo.Some? && s.imo.value > 0 then Some(Decimal(s.imo.value)) else None)
      + Line("Type", if s.shipType.Some?
                     then Some(Decimal(s.shipType.value) + " (" + ShipTypeWord(s.shipType.value) + ")") else None)
  }

  function LinesAfterStatus(statics: Option<StaticData>): seq<Remark> {
    match statics
    case None => []
    case Some(s) =>
      Line("Destination", s.destination)
      + Line("ETA", s.eta)
      + Line("Length/Beam", if s.dimensions.Some? && IsKnown(s.dimensions.value)
                            then Some(Decimal(LengthM(s.dimensions.value)) + " m / "
                                      + Decimal(BeamM(s.dimensions.value)) + " m")
                            else None)
  }

  function StatusLine(status: Option<U8>): seq<Remark> {
    Line(STATUS_REMARK, if status.Some? then Some(NavStatusWord(status.value)) else None)
  }

  /** The track a position, and whatever static data has arrived for the same vessel, describes. */
  function TrackOf(p: Position, statics: Option<StaticData>, source: string): Track {
    Track(
      Id(p.mmsi),
      if statics.Some? && statics.value.shipType.Some? then ClassOf(statics.value.shipType.value) else Other,
      (p.lat, p.lon),
      p.observedAt,
      SpeedMps(p.sogKnots),
      Course(p.cogDeg),
      Heading(p.headingDeg),
      if statics.Some? && statics.value.name.Some? then statics.value.name else Some("MMSI " + Decimal(p.mmsi)),
      [("MMSI", Decimal(p.mmsi))] + LinesBeforeStatus(statics) + StatusLine(p.navStatus) + LinesAfterStatus(statics)
      + [("Source", source)])
  }

  // ---- reading the status back ----

  /** Any line of any track may say it, in one of three words. */
  lemma AnyRemarkMaySayStationary(track: Track)
    ensures IsStationary(track) <==>
            || ("Status", "at anchor") in track.remarks
            || ("Status", "moored") in track.remarks
            || ("Status", "aground") in track.remarks
  {
    assert forall i :: 0 <= i < |track.remarks| && SaysStationary(track.remarks[i]) ==>
             track.remarks[i] in track.remarks
             && (track.remarks[i] == ("Status", "at anchor") || track.remarks[i] == ("Status", "moored")
                 || track.remarks[i] == ("Status", "aground"));
    assert SaysStationary(("Status", "at anchor")) && SaysStationary(("Status", "moored"))
           && SaysStationary(("Status", "aground"));
  }

  predicate NoStatus(lines: seq<Remark>) {
    forall i :: 0 <= i < |lines| ==> lines[i].0 != STATUS_REMARK
  }

  lemma OtherLinesAreNotStatus(statics: Option<StaticData>)
    ensures NoStatus(LinesBeforeStatus(statics)) && NoStatus(LinesAfterStatus(statics))
  {
    assert "Call sign" != STATUS_REMARK && "IMO" != STATUS_REMARK && "Type" != STATUS_REMARK;
    assert "Destination" != STATUS_REMARK && "ETA" != STATUS_REMARK && "Length/Beam" != STATUS_REMARK;
  }

  /** No two codes share one of the three words, whatever the other codes are called. */
  lemma WordsTellStationary(code: U8)
    ensures IsStationaryStatus(code) <==>
            NavStatusWord(code) == NavStatusWord(1) || NavStatusWord(code) == NavStatusWord(5)
            || NavStatusWord(code) == NavStatusWord(6)
  {
    var word := NavStatusWord(code);
    if !IsStationaryStatus(code) {
      assert word == "not defined" ==> word[0] == 'n';
      assert |word| != |"at anchor"| && |word| != |"moored"| && |word| != |"aground"|;
    }
  }

  /** Whatever else is known of a vessel, its track reads back as stationary exactly when its status is 1, 5 or 6. */
  lemma StationaryReadsBack(p: Position, statics: Option<StaticData>, source: string)
    ensures IsStationary(TrackOf(p, statics, source)) <==> p.navStatus.Some? && IsStationaryStatus(p.navStatus.value)
  {
    var remarks := TrackOf(p, statics, source).remarks;
    var before := [("MMSI", Decimal(p.mmsi))] + LinesBeforeStatus(statics);
    var after := LinesAfterStatus(statics) + [("Source", source)];
    var status := StatusLine(p.navStatus);
    OtherLinesAreNotStatus(statics);
    assert remarks == before + status + after;
    assert NoStatus(before) && NoStatus(after) by {
      assert "MMSI" != STATUS_REMARK && "Source" != STATUS_REMARK;
    }
    if p.navStatus.Some? {
      WordsTellStationary(p.navStatus.value);
      assert remarks[|before|] == status[0];
    }
    assert forall i :: 0 <= i < |remarks| && SaysStationary(remarks[i]) ==> remarks[i] in status;
  }

  /**
   * Static data only relabels a hull: where it is, when, and how it moves come from its position alone, every line it
   * had stays, and no "not available" reading is ever published.
   */
  lemma EnrichmentOnlyRelabels(p: Position, s: StaticData, source: string)
    ensures
      var bare := TrackOf(p, None, source);
      var full := TrackOf(p, Some(s), source);
      && full == bare.(kind := full.kind, callsign := full.callsign, remarks := full.remarks)
      && (forall remark :: remark in bare.remarks ==> remark in full.remarks)
      && (s.name.None? ==> full.callsign == bare.callsign) && (s.shipType.None? ==> full.kind == bare.kind)
      && (full.headingDeg.Some? ==> full.headingDeg == p.headingDeg && 0.0 <= full.headingDeg.value <= 359.0)
      && (full.courseDeg.Some? ==> full.courseDeg == p.cogDeg && 0.0 <= full.courseDeg.value < 360.0)
      && (full.speedMps.Some? ==> p.sogKnots.Some? && 0.0 <= p.sogKnots.value < 102.3)
  {
    var bare := TrackOf(p, None, source).remarks;
    var status := StatusLine(p.navStatus);
    var mmsi := [("MMSI", Decimal(p.mmsi))];
    var last := [("Source", source)];
    assert bare == mmsi + status + last;
    var full := TrackOf(p, Some(s), source).remarks;
    var before := LinesBeforeStatus(Some(s));
    var after := LinesAfterStatus(Some(s));
    assert full == mmsi + before + status + after + last;
    assert forall remark :: remark in bare ==> remark in mmsi || remark in status || remark in last;
  }

  /** What is published of a position, from the report alone: its place, and each reading exactly when it is available. */
  lemma TracksSayWhatWasReported(p: Position, statics: Option<StaticData>, source: string)
    ensures
      var t := TrackOf(p, statics, source);
      && t.id == "AIS-" + Decimal(p.mmsi) && t.position.0 == p.lat && t.position.1 == p.lon
      && t.observedAt == p.observedAt
      && (t.kind == if statics.Some? && statics.value.shipType.Some? then ClassOf(statics.value.shipType.value)
                    else VesselClass.Other)
      && (t.headingDeg.Some? <==> p.headingDeg.Some? && 0.0 <= p.headingDeg.value <= 359.0)
      && (t.courseDeg.Some? <==> p.cogDeg.Some? && 0.0 <= p.cogDeg.value < 360.0)
      && (t.speedMps.Some? <==> p.sogKnots.Some? && 0.0 <= p.sogKnots.value < 102.3)
      && (t.headingDeg.Some? ==> t.headingDeg == p.headingDeg) && (t.courseDeg.Some? ==> t.courseDeg == p.cogDeg)
      && (t.speedMps.Some? ==> t.speedMps == Some(p.sogKnots.value * 0.5144444444444444))
      && (t.callsign == if statics.Some? && statics.value.name.Some? then statics.value.name
                        else Some("MMSI " + Decimal(p.mmsi)))
  {
  }

  // ---- the words ----

  /** What each status code up to 14 is called, in order. */
  const STATUS_WORDS := [
    "under way using engine", "at anchor", "not under command", "restricted manoeuvrability", "constrained by draught",
    "moored", "aground", "engaged in fishing", "under way sailing", "not defined", "not defined", "under tow astern",
    "pushing ahead or towing alongside", "not defined", "AIS-SART, MOB-AIS or EPIRB-AIS is active"]

  lemma StatusWordsAreTheTables(code: U8)
    ensures NavStatusWord(code) == if code < |STATUS_WORDS| then STATUS_WORDS[code] else "not defined"
  {
  }

  /** What each ship type from 30 to 37 and from 50 to 59 is called, in order, and each ten that shares a word. */
  const THIRTIES := ["fishing", "towing", "towing", "dredging or underwater operations", "diving operations",
                     "military operations", "sailing", "pleasure craft", "unknown", "unknown"]
  const FIFTIES := ["pilot vessel", "search and rescue", "tug", "port tender", "anti-pollution equipment",
                    "law enforcement", "unknown", "unknown", "medical transport", "non-combatant"]
  const TENS := ["unknown", "unknown", "wing in ground", "", "high-speed craft", "", "passenger", "cargo", "tanker", "other"]

  lemma TypeWordsAreTheTables(code: U8)
    ensures ShipTypeWord(code) == if code >= 100 then "unknown" else if 30 <= code < 40 then THIRTIES[code - 30]
                                  else if 50 <= code < 60 then FIFTIES[code - 50] else TENS[code / 10]
  {
    assert code / 10 < 10 <==> code < 100;
  }

  /** A vessel's class never contradicts the word beside it. */
  lemma ClassAgreesWithTheWord(code: U8)
    ensures ClassOf(code).Fishing? <==> ShipTypeWord(code) == "fishing"
    ensures ClassOf(code).Military? <==> ShipTypeWord(code) == "military operations"
    ensures ClassOf(code).Leisure? <==> ShipTypeWord(code) == "sailing" || ShipTypeWord(code) == "pleasure craft"
    ensures ClassOf(code).LawEnforcement? <==> ShipTypeWord(code) == "law enforcement"
    ensures ClassOf(code).Merchant? <==>
            ShipTypeWord(code) == "passenger" || ShipTypeWord(code) == "cargo" || ShipTypeWord(code) == "tanker"
  {
    WordsDiffer(ShipTypeWord(code));
  }

  /** The seven words a class goes by, by length and first letter. */
  lemma WordsDiffer(word: string)
    ensures word == "fishing" ==> |word| == 7 && word[0] == 'f'
    ensures word == "sailing" ==> |word| == 7 && word[0] == 's'
    ensures word == "military operations" ==> |word| == 19
    ensures word == "pleasure craft" ==> |word| == 14
    ensures word == "law enforcement" ==> |word| == 15
    ensures word == "passenger" ==> |word| == 9
    ensures word == "cargo" ==> |word| == 5 && word[0] == 'c'
    ensures word == "tanker" ==> |word| == 6 && word[0] == 't'
  {
  }

  // ---- the remarks ----

  /** The first line under a key. */
  function Lookup(lines: seq<Remark>, key: string): Option<string> {
    if lines == [] then None else if lines[0].0 == key then Some(lines[0].1) else Lookup(lines[1..], key)
  }

  lemma {:induction false} LookupConcat(a: seq<Remark>, b: seq<Remark>, key: string)
    ensures Lookup(a + b, key) == if Lookup(a, key).Some? then Lookup(a, key) else Lookup(b, key)
  {
    if a == [] {
      assert a + b == b;
    } else {
      assert (a + b)[1..] == a[1..] + b;
      LookupConcat(a[1..], b, key);
    }
  }

  lemma LookupLine(name: string, value: Option<string>, key: string)
    ensures Lookup(Line(name, value), key) == if name == key then value else None
  {
    if value.Some? {
      assert Line(name, value)[1..] == [];
    }
  }

  /** The first of several that there is. */
  function OrElse(first: Option<string>, second: Option<string>): Option<string> {
    if first.Some? then first else second
  }

  function Under(key: string, name: string, value: Option<string>): Option<string> {
    if name == key then value else None
  }

  /** An IMO number, unless it is the zero that stands for none. */
  function Imo(s: StaticData): Option<string> {
    match s.imo
    case None => None
    case Some(imo) => if imo == 0 then None else Some(Decimal(imo))
  }

  function TypeText(s: StaticData): Option<string> {
    match s.shipType
    case None => None
    case Some(code) => Some(Decimal(code) + " (" + ShipTypeWord(code) + ")")
  }

  /** The size, unless every dimension is the zero that stands for none. */
  function SizeText(s: StaticData): Option<string> {
    match s.dimensions
    case None => None
    case Some(d) =>
      if d.toBow == d.toStern == d.toPort == d.toStarboard == 0 then None
      else Some(Decimal(d.toBow + d.toStern) + " m / " + Decimal(d.toPort + d.toStarboard) + " m")
  }

  lemma LookupInThree(a: string, x: Option<string>, b: string, y: Option<string>, c: string, z: Option<string>, key: string)
    ensures Lookup(Line(a, x) + Line(b, y) + Line(c, z), key)
            == OrElse(Under(key, a, x), OrElse(Under(key, b, y), Under(key, c, z)))
  {
    LookupConcat(Line(a, x) + Line(b, y), Line(c, z), key);
    LookupConcat(Line(a, x), Line(b, y), key);
    LookupLine(a, x, key);
    LookupLine(b, y, key);
    LookupLine(c, z, key);
  }

  lemma LookupBeforeStatus(s: StaticData, key: string)
    ensures Lookup(LinesBeforeStatus(Some(s)), key)
            == OrElse(Under(key, "Call sign", s.callSign), OrElse(Under(key, "IMO", Imo(s)), Under(key, "Type", TypeText(s))))
  {
    LookupInThree("Call sign", s.callSign, "IMO", Imo(s), "Type", TypeText(s), key);
  }

  lemma SizesAreKnown(d: Dimensions)
    ensures LengthM(d) == d.toBow + d.toStern && BeamM(d) == d.toPort + d.toStarboard
    ensures IsKnown(d) <==> !(d.toBow == d.toStern == d.toPort == d.toStarboard == 0)
  {
  }

  lemma LookupAfterStatus(s: StaticData, key: string)
    ensures Lookup(LinesAfterStatus(Some(s)), key)
            == OrElse(Under(key, "Destination", s.destination),
                      OrElse(Under(key, "ETA", s.eta), Under(key, "Length/Beam", SizeText(s))))
  {
    if s.dimensions.Some? {
      SizesAreKnown(s.dimensions.value);
    }
    LookupInThree("Destination", s.destination, "ETA", s.eta, "Length/Beam", SizeText(s), key);
  }

  lemma LookupInTrack(p: Position, s: StaticData, source: string, key: string)
    ensures Lookup(TrackOf(p, Some(s), source).remarks, key)
            == OrElse(Under(key, "MMSI", Some(Decimal(p.mmsi))),
                      OrElse(Lookup(LinesBeforeStatus(Some(s)), key),
                             OrElse(Lookup(StatusLine(p.navStatus), key),
                                    OrElse(Lookup(LinesAfterStatus(Some(s)), key), Under(key, "Source", Some(source))))))
  {
    var mmsi, last := Line("MMSI", Some(Decimal(p.mmsi))), Line("Source", Some(source));
    var before, status, after := LinesBeforeStatus(Some(s)), StatusLine(p.navStatus), LinesAfterStatus(Some(s));
    assert TrackOf(p, Some(s), source).remarks == mmsi + before + status + after + last;
    LookupConcat(mmsi + before + status + after, last, key);
    LookupConcat(mmsi + before + status, after, key);
    LookupConcat(mmsi + before, status, key);
    LookupConcat(mmsi, before, key);
    LookupLine("MMSI", Some(Decimal(p.mmsi)), key);
    LookupLine("Source", Some(source), key);
  }

  /** No two of the nine keys are alike. */
  lemma KeysDiffer(key: string)
    ensures key == "MMSI" ==> |key| == 4 && key[0] == 'M'
    ensures key == "Source" ==> |key| == 6 && key[1] == 'o'
    ensures key == "Call sign" ==> |key| == 9
    ensures key == "Destination" ==> |key| == 11 && key[0] == 'D'
    ensures key == "ETA" ==> |key| == 3 && key[0] == 'E'
    ensures key == "IMO" ==> |key| == 3 && key[0] == 'I'
    ensures key == "Type" ==> |key| == 4 && key[0] == 'T'
    ensures key == "Length/Beam" ==> |key| == 11 && key[0] == 'L'
    ensures key == "Status" ==> |key| == 6 && key[1] == 't'
  {
  }

  function StatusText(p: Position): Option<string> {
    match p.navStatus
    case None => None
    case Some(code) => Some(NavStatusWord(code))
  }

  /** What stands under a key. */
  lemma FoundUnder(p: Position, s: StaticData, source: string, key: string)
    ensures
      Lookup(TrackOf(p, Some(s), source).remarks, key)
      == if key == "MMSI" then Some(Decimal(p.mmsi)) else if key == "Source" then Some(source)
         else if key == "Call sign" then s.callSign else if key == "Destination" then s.destination
         else if key == "ETA" then s.eta else if key == "IMO" then Imo(s) else if key == "Type" then TypeText(s)
         else if key == "Length/Beam" then SizeText(s) else if key == "Status" then StatusText(p) else None
  {
    KeysDiffer(key);
    LookupInTrack(p, s, source, key);
    LookupBeforeStatus(s, key);
    LookupAfterStatus(s, key);
    LookupLine("Status", StatusText(p), key);
    assert StatusLine(p.navStatus) == Line("Status", StatusText(p));
  }

  /** Nothing said is lost or put under another name: every remark reads back as the field it was written for. */
  lemma RemarksReadBack(p: Position, s: StaticData, source: string)
    ensures
      var remarks := TrackOf(p, Some(s), source).remarks;
      && Lookup(remarks, "MMSI") == Some(Decimal(p.mmsi)) && Lookup(remarks, "Source") == Some(source)
      && Lookup(remarks, "Call sign") == s.callSign && Lookup(remarks, "Destination") == s.destination
      && Lookup(remarks, "ETA") == s.eta && Lookup(remarks, "IMO") == Imo(s)
      && Lookup(remarks, "Type") == TypeText(s) && Lookup(remarks, "Length/Beam") == SizeText(s)
      && Lookup(remarks, "Status") == StatusText(p)
      && remarks[0].0 == "MMSI" && remarks[|remarks| - 1].0 == "Source"
  {
    FoundUnder(p, s, source, "MMSI");
    FoundUnder(p, s, source, "Source");
    FoundUnder(p, s, source, "Call sign");
    FoundUnder(p, s, source, "Destination");
    FoundUnder(p, s, source, "ETA");
    FoundUnder(p, s, source, "IMO");
    FoundUnder(p, s, source, "Type");
    FoundUnder(p, s, source, "Length/Beam");
    FoundUnder(p, s, source, "Status");
  }

  /** Two vessels never share an id. */
  lemma IdIsInjective(a: Mmsi, b: Mmsi)
    ensures Id(a) == Id(b) <==> a == b
  {
    if Id(a) == Id(b) {
      assert Id(a)[4..] == Decimal(a) && Id(b)[4..] == Decimal(b);
      DecimalIsInjective(a, b);
    }
  }
}
