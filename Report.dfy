/**
 * The values `main` prints and `export_pass` writes for a pass: its label,
 * one console line per echo, one CSV row per telemetry-bearing echo, the
 * file-name stem and the trajectory document. Number formatting (`:.1f`,
 * `:.0f`) and the file system are not modelled; the rows carry the values.
 */
module Report {
  import opened Records
  import opened PassStats
  import opened Track
  import opened Timestamps

  /** The telemetry columns of a row. */
  datatype SatColumns = SatColumns(
    sat: string, az: real, el: real, rangeKm: real,
    main: int, sub: int, mainPlusSub: int, dopUp: int, dopDown: int,
    offset: int, rit: string, ritFreq: int, timeDiff: nat,
    drift: int, residualDoppler: int, dopUpRate: int, dopDownRate: int)

  /**
   * One output row: Timestamp, Tx/Rx offsets, offset delta, message, SNR,
   * DT, then the telemetry columns (`None`: "No satellite data available").
   */
  datatype Row = Row(
    timestamp: string, txOffset: int, rxOffset: int, offsetDelta: int,
    message: string, snr: int, dt: real, sat: Option<SatColumns>)

  /**
   * The telemetry columns of a tracked echo `c`: the sample's values, the
   * time difference, Drift (centred by `centerDrift`) and Residual Doppler
   * (Drift less both Doppler corrections).
   */
  ghost predicate SatColumnsOf(cols: SatColumns, c: Combined, centerDrift: int)
    requires c.fix.Some?
  {
    var p := c.fix.value.pycom;
    && cols.sat == p.sat && cols.az == p.az && cols.el == p.el && cols.rangeKm == p.rangeKm
    && cols.main == p.main && cols.sub == p.sub && cols.mainPlusSub == p.main + p.sub
    && cols.dopUp == p.dopUp && cols.dopDown == p.dopDown && cols.offset == p.offset
    && cols.rit == p.rit && cols.ritFreq == p.ritFreq && cols.timeDiff == c.fix.value.timeDiff
    && cols.drift == Drift(c, centerDrift)
    && cols.residualDoppler == Drift(c, centerDrift) - p.dopUp - p.dopDown
    && cols.dopUpRate == p.dopUpRate && cols.dopDownRate == p.dopDownRate
  }

  /** The telemetry columns of a fix, given the echo's centred drift. */
  function Columns(f: SatFix, drift: int): SatColumns
  {
    var p := f.pycom;
    SatColumns(p.sat, p.az, p.el, p.rangeKm, p.main, p.sub, p.main + p.sub,
               p.dopUp, p.dopDown, p.offset, p.rit, p.ritFreq, f.timeDiff,
               drift, drift - p.dopUp - p.dopDown, p.dopUpRate, p.dopDownRate)
  }

  /** A console line of `main`'s per-pass listing. */
  function ConsoleLine(c: Combined, centerDrift: int): (r: Row)
    ensures r.sat.Some? <==> c.fix.Some?
    ensures r.timestamp == c.echo.tsStr && r.message == c.echo.message
    ensures r.txOffset == c.echo.txOffset && r.rxOffset == c.echo.rxOffset
    ensures r.snr == c.echo.snr && r.dt == c.echo.dt
    ensures r.offsetDelta == c.echo.txOffset - c.echo.rxOffset
    ensures r.sat.Some? ==> SatColumnsOf(r.sat.value, c, centerDrift)
  {
    var e := c.echo;
    var satInfo :=
      match c.fix
      case None => None
      case Some(f) => Some(Columns(f, Drift(c, centerDrift)));
    var offsetDelta := e.txOffset - e.rxOffset;
    Row(e.tsStr, e.txOffset, e.rxOffset, offsetDelta, e.message, e.snr, e.dt, satInfo)
  }

  /** A CSV row written by `export_pass`. */
  function CsvRow(c: Combined, centerDrift: int): (r: Row)
    requires c.fix.Some?
    ensures r.sat.Some? && SatColumnsOf(r.sat.value, c, centerDrift)
    ensures r.timestamp == c.echo.tsStr && r.message == c.echo.message
    ensures r.txOffset == c.echo.txOffset && r.rxOffset == c.echo.rxOffset
    ensures r.snr == c.echo.snr && r.dt == c.echo.dt
    ensures r.offsetDelta == c.echo.txOffset - c.echo.rxOffset
    // the derived columns can be recomputed from the others when the file is read back
    ensures r.sat.value.mainPlusSub == r.sat.value.main + r.sat.value.sub
    ensures r.sat.value.drift == r.sat.value.main + r.rxOffset + r.sat.value.sub - r.txOffset - centerDrift
    ensures r.sat.value.residualDoppler == r.sat.value.drift - r.sat.value.dopUp - r.sat.value.dopDown
  {
    var e := c.echo;
    var offsetDelta := e.txOffset - e.rxOffset;
    Row(e.tsStr, e.txOffset, e.rxOffset, offsetDelta, e.message, e.snr, e.dt,
        Some(Columns(c.fix.value, Drift(c, centerDrift))))
  }

  /** The rows of the CSV file: the telemetry-bearing echoes, in pass order. */
  function CsvRows(pass: seq<Combined>, centerDrift: int): (rows: seq<Row>)
    ensures |rows| == |ValidItems(pass)|
    ensures forall k :: 0 <= k < |rows| ==> rows[k].sat.Some?
  {
    if pass == [] then []
    else (if pass[0].fix.Some? then [CsvRow(pass[0], centerDrift)] else []) + CsvRows(pass[1..], centerDrift)
  }

  /**
   * The exported rows and the printed lines agree: the k-th CSV row is the
   * console line of the k-th telemetry-bearing echo.
   */
  lemma {:induction false} CsvRowsMatchConsole(pass: seq<Combined>, centerDrift: int)
    ensures forall k :: 0 <= k < |CsvRows(pass, centerDrift)| ==>
      CsvRows(pass, centerDrift)[k] == ConsoleLine(ValidItems(pass)[k], centerDrift)
  {
    if pass != [] {
      CsvRowsMatchConsole(pass[1..], centerDrift);
      if pass[0].fix.Some? {
        var rows := CsvRows(pass, centerDrift);
        var v := ValidItems(pass);
        forall k | 0 <= k < |rows| ensures rows[k] == ConsoleLine(v[k], centerDrift) {
          if k == 0 {
            assert rows[0] == CsvRow(pass[0], centerDrift) && v[0] == pass[0];
          } else {
            assert rows[k] == CsvRows(pass[1..], centerDrift)[k - 1];
            assert v[k] == ValidItems(pass[1..])[k - 1];
          }
        }
      }
    }
  }

  /** The console lines of a pass, one per echo. */
  function ConsoleLines(pass: seq<Combined>, centerDrift: int): (lines: seq<Row>)
    ensures |lines| == |pass|
    ensures forall k :: 0 <= k < |pass| ==> lines[k] == ConsoleLine(pass[k], centerDrift)
  {
    if pass == [] then [] else [ConsoleLine(pass[0], centerDrift)] + ConsoleLines(pass[1..], centerDrift)
  }

  /** The heading of a pass in `main`: satellite, or "Unknown", and start time. */
  function PassLabel(pass: seq<Combined>): (heading: (string, string))
    requires pass != []
    ensures heading.1 == pass[0].echo.tsStr
    ensures ValidItems(pass) == [] ==> heading.0 == "Unknown"
    ensures ValidItems(pass) != [] ==> heading.0 == ValidItems(pass)[0].fix.value.pycom.sat
  {
    var v := ValidItems(pass);
    (if v == [] then "Unknown" else v[0].fix.value.pycom.sat, pass[0].echo.tsStr)
  }

  /** Every echo's timestamp text decodes, as it does for the lines the parser accepted. */
  ghost predicate DecodableStamps(pass: seq<Combined>)
  {
    forall i :: 0 <= i < |pass| ==>
      IsTsText(pass[i].echo.tsStr) && DecodeTsText(pass[i].echo.tsStr).Some?
  }

  lemma ValidStampsDecodable(pass: seq<Combined>)
    requires DecodableStamps(pass)
    ensures DecodableStamps(ValidItems(pass))
  {
    var v := ValidItems(pass);
    forall k | 0 <= k < |v| ensures IsTsText(v[k].echo.tsStr) && DecodeTsText(v[k].echo.tsStr).Some? {
      var j := ValidItemsSound(pass, k);
    }
  }

  /** The file-name stem of `export_pass`, or `None` when it exports nothing. */
  function BaseName(pass: seq<Combined>): (r: Option<string>)
    requires DecodableStamps(pass)
    ensures r.None? <==> ValidItems(pass) == []
    ensures r.Some? ==> var first := ValidItems(pass)[0];
      r.value == "20" + first.echo.tsStr + "_" + first.fix.value.pycom.sat
  {
    var v := ValidItems(pass);
    if v == [] then None
    else
      var first := v[0];
      ValidStampsDecodable(pass);
      FormatStampRoundTrip(first.echo.tsStr);
      Some(FormatStamp(DecodeTsText(first.echo.tsStr).value) + "_" + first.fix.value.pycom.sat)
  }

  /** A point of the trajectory document; `uplink` is the sub and `downlink` the main frequency. */
  datatype JsonPoint = JsonPoint(az: real, el: real, rangeKm: real, uplink: int, downlink: int, dopUp: int, dopDown: int)

  /** The points of the trajectory document, in track order. */
  function JsonPoints(points: seq<TrackPoint>): (r: seq<JsonPoint>)
    ensures |r| == |points|
    ensures forall k :: 0 <= k < |points| ==>
      && r[k].uplink == points[k].sub && r[k].downlink == points[k].main
      && r[k].az == points[k].az && r[k].el == points[k].el && r[k].rangeKm == points[k].rangeKm
      && r[k].dopUp == points[k].dopUp && r[k].dopDown == points[k].dopDown
  {
    if points == [] then []
    else
      var p := points[0];
      [JsonPoint(p.az, p.el, p.rangeKm, p.sub, p.main, p.dopUp, p.dopDown)] + JsonPoints(points[1..])
  }

  datatype TrackDocument = TrackDocument(sat: string, startTime: int, endTime: int, points: seq<JsonPoint>)

  /** What `export_pass` writes for a pass: the stem, the CSV rows, the trajectory. */
  datatype Export = Export(baseName: string, rows: seq<Row>, track: Option<TrackDocument>)

  /** parselog.py's `export_pass`, without the skip-if-the-file-exists test. */
  function ExportPass(pass: seq<Combined>, track: Option<PassTrack>, centerDrift: int): (r: Option<Export>)
    requires DecodableStamps(pass)
    ensures r.None? <==> ValidItems(pass) == []
    ensures r.Some? ==> BaseName(pass).Some? && r.value.baseName == BaseName(pass).value
    ensures r.Some? ==> r.value.rows == CsvRows(pass, centerDrift)
    ensures r.Some? ==> (r.value.track.Some? <==> track.Some?)
    // the document is named after the first telemetry-bearing echo's satellite
    ensures r.Some? && r.value.track.Some? ==>
      && r.value.track.value.sat == ValidItems(pass)[0].fix.value.pycom.sat
      && r.value.track.value.startTime == track.value.start
      && r.value.track.value.endTime == track.value.end
      && r.value.track.value.points == JsonPoints(track.value.points)
  {
    match BaseName(pass)
    case None => None
    case Some(name) =>
      var sat := ValidItems(pass)[0].fix.value.pycom.sat;
      var doc :=
        match track
        case None => None
        case Some(t) =>
          Some(TrackDocument(sat, t.start, t.end, JsonPoints(t.points)));
      Some(Export(name, CsvRows(pass, centerDrift), doc))
  }

  /**
   * `export_pass` as written: `main` hands it the four-tuple returned by
   * `extract_full_pass_track`, which is truthy even when it is
   * `(None, None, None, None)`, so the JSON branch runs for a pass with
   * telemetry but no track and fails on `None.isoformat()` after the CSV
   * file has been written.
   */
  datatype ExportOutcome =
    | NotExported
    | Exported(written: Export)
    | CsvThenCrash(baseName: string, rows: seq<Row>)

  function ExportPassAsWritten(pass: seq<Combined>, track: Option<PassTrack>, centerDrift: int): (r: ExportOutcome)
    requires DecodableStamps(pass)
    ensures r.NotExported? <==> ValidItems(pass) == []
    ensures r.CsvThenCrash? <==> ValidItems(pass) != [] && track.None?
  {
    match ExportPass(pass, track, centerDrift)
    case None => NotExported
    case Some(x) => if track.None? then CsvThenCrash(x.baseName, x.rows) else Exported(x)
  }

  /**
   * The crash is reachable: a pass whose telemetry comes from a log with
   * fewer than two samples has no track, and the export then fails.
   */
  lemma ShortTrackCrashesExport(pass: seq<Combined>, ps: seq<Pycom>, cfg: Config)
    requires DecodableStamps(pass) && ValidItems(pass) != [] && |ps| < 2
    ensures ExtractTrack(pass, ps, cfg).None?
    ensures ExportPassAsWritten(pass, ExtractTrack(pass, ps, cfg), 0).CsvThenCrash?
  {
  }
}
