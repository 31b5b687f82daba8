/**
 * The batch run of `main`: echo detection, telemetry correlation, pass
 * segmentation, then per pass its heading, statistics, console lines, track
 * and export. Loading the logs is not modelled: the parsed record lists are
 * the inputs.
 */
module Pipeline {
  import opened Records
  import opened Sorting
  import opened EchoMatch
  import opened Telemetry
  import opened Passes
  import opened PassStats
  import opened Track
  import opened Timestamps
  import opened Report

  /** Every transmission's timestamp text decodes, as it does for each line the parser accepted. */
  ghost predicate ParsedStamps(txs: seq<WsjtRecord>)
  {
    forall i :: 0 <= i < |txs| ==> IsTsText(txs[i].tsStr) && DecodeTsText(txs[i].tsStr).Some?
  }

  /** What `main` prints and exports for one pass. */
  datatype PassReport = PassReport(
    heading: (string, string),
    stats: PassStats,
    lines: seq<Row>,
    track: Option<PassTrack>,
    exported: Option<Export>)

  /** The centre drift `main` hands to the rows: 0 for a pass without telemetry. */
  function PassCenterDrift(s: PassStats): int
    requires !s.NoStats?
  {
    s.centerDrift
  }

  /** The body of `main`'s loop over the passes. */
  function ReportPass(pass: seq<Combined>, ps: seq<Pycom>, cfg: Config): (r: PassReport)
    requires pass != [] && DecodableStamps(pass)
    ensures r.stats == Statistics(pass) && !r.stats.NoStats?
    ensures r.exported.None? <==> ValidItems(pass) == []
  {
    var stats := Statistics(pass);
    var drift := PassCenterDrift(stats);
    var lines := ConsoleLines(pass, drift);
    var track := ExtractTrack(pass, ps, cfg);
    PassReport(PassLabel(pass), stats, lines, track, ExportPass(pass, track, drift))
  }

  /**
   * Within a report, one console line per echo; the exported rows are the
   * console lines of the tracked echoes; a track and its document exist
   * together.
   */
  lemma ReportPassConsistent(pass: seq<Combined>, ps: seq<Pycom>, cfg: Config)
    requires pass != [] && DecodableStamps(pass)
    ensures var r := ReportPass(pass, ps, cfg);
      && |r.lines| == |pass|
      && (forall k :: 0 <= k < |pass| ==> r.lines[k] == ConsoleLine(pass[k], PassCenterDrift(r.stats)))
      && (r.exported.Some? ==> |r.exported.value.rows| == |ValidItems(pass)|)
      && (r.exported.Some? ==> forall k :: 0 <= k < |ValidItems(pass)| ==>
            r.exported.value.rows[k] == ConsoleLine(ValidItems(pass)[k], PassCenterDrift(r.stats)))
      && (r.track.Some? <==> r.exported.Some? && r.exported.value.track.Some?)
  {
    var r := ReportPass(pass, ps, cfg);
    CsvRowsMatchConsole(pass, PassCenterDrift(r.stats));
    assert r.track.Some? ==> ValidItems(pass) != [];
  }

  /**
   * For a time-ordered pass the heading, the track and the trajectory
   * document all name the same satellite, that of the first tracked echo.
   */
  lemma SatelliteAgrees(pass: seq<Combined>, ps: seq<Pycom>, cfg: Config)
    requires pass != [] && DecodableStamps(pass) && SortedBy(pass, CombinedTs)
    requires ReportPass(pass, ps, cfg).track.Some?
    ensures var r := ReportPass(pass, ps, cfg);
      && r.heading.0 == r.track.value.sat
      && r.exported.value.track.value.sat == r.track.value.sat
      && r.track.value.start == ValidItems(pass)[0].echo.ts
      && r.track.value.end == ValidItems(pass)[|ValidItems(pass)| - 1].echo.ts
  {
    AnchorOfSortedPass(pass);
  }

  lemma {:induction false} InFlatten(ss: seq<seq<Combined>>, i: nat, k: nat)
    requires i < |ss| && k < |ss[i]|
    ensures ss[i][k] in Flatten(ss)
    decreases i
  {
    if i == 0 {
      assert Flatten(ss) == ss[0] + Flatten(ss[1..]);
    } else {
      InFlatten(ss[1..], i - 1, k);
      assert Flatten(ss) == ss[0] + Flatten(ss[1..]);
    }
  }

  /** The passes cut from echoes with decodable stamps have decodable stamps. */
  lemma PassStampsDecodable(passes: seq<seq<Combined>>)
    requires DecodableStamps(Flatten(passes))
    ensures forall i :: 0 <= i < |passes| ==> DecodableStamps(passes[i])
  {
    forall i, k | 0 <= i < |passes| && 0 <= k < |passes[i]|
      ensures IsTsText(passes[i][k].echo.tsStr) && DecodeTsText(passes[i][k].echo.tsStr).Some?
    {
      InFlatten(passes, i, k);
    }
  }

  /** Every echo carries the timestamp text of one of the transmissions, so it decodes. */
  lemma EchoStampsDecodable(txs: seq<WsjtRecord>, rxs: seq<WsjtRecord>, cfg: Config, combined: seq<Combined>)
    requires ParsedStamps(txs)
    requires forall j :: 0 <= j < |combined| ==> combined[j].echo in SortBy(Matches(txs, rxs, cfg), EchoTs)
    ensures DecodableStamps(combined)
  {
    var m := Matches(txs, rxs, cfg);
    forall j | 0 <= j < |combined|
      ensures IsTsText(combined[j].echo.tsStr) && DecodeTsText(combined[j].echo.tsStr).Some?
    {
      assert combined[j].echo in multiset(SortBy(m, EchoTs));
      MatchesSound(txs, rxs, cfg, combined[j].echo);
    }
  }

  /** Every pass of a time-ordered input is time-ordered. */
  lemma AllPassesSorted(passes: seq<seq<Combined>>, s: seq<Combined>, maxGap: nat)
    requires IsSegmentation(passes, s, maxGap) && SortedBy(s, CombinedTs)
    ensures forall i :: 0 <= i < |passes| ==> SortedBy(passes[i], CombinedTs)
  {
    forall i | 0 <= i < |passes| ensures SortedBy(passes[i], CombinedTs) {
      PassesOfSortedInput(passes, s, maxGap, i);
    }
  }

  ghost predicate Reportable(passes: seq<seq<Combined>>)
  {
    forall i :: 0 <= i < |passes| ==> passes[i] != [] && DecodableStamps(passes[i])
  }

  /** `f` applied to each element, in order. */
  function MapSeq<A, B>(xs: seq<A>, f: A --> B): (ys: seq<B>)
    requires forall i :: 0 <= i < |xs| ==> f.requires(xs[i])
    ensures |ys| == |xs|
    ensures forall i :: 0 <= i < |xs| ==> ys[i] == f(xs[i])
  {
    if xs == [] then [] else [f(xs[0])] + MapSeq(xs[1..], f)
  }

  lemma MapSeqSnoc<A, B>(xs: seq<A>, f: A --> B, i: nat)
    requires i < |xs| && forall k :: 0 <= k < |xs| ==> f.requires(xs[k])
    ensures MapSeq(xs[..i + 1], f) == MapSeq(xs[..i], f) + [f(xs[i])]
  {
  }

  /** The loop of `main` over the passes. */
  method ReportAll(passes: seq<seq<Combined>>, ps: seq<Pycom>, cfg: Config) returns (reports: seq<PassReport>)
    requires Reportable(passes)
    ensures |reports| == |passes|
    ensures forall i :: 0 <= i < |passes| ==> reports[i] == ReportPass(passes[i], ps, cfg)
  {
    var report := (pass: seq<Combined>) requires pass != [] && DecodableStamps(pass) => ReportPass(pass, ps, cfg);
    reports := [];
    for i := 0 to |passes|
      invariant reports == MapSeq(passes[..i], report)
    {
      MapSeqSnoc(passes, report, i);
      reports := reports + [report(passes[i])];
    }
    assert passes[..|passes|] == passes;
  }

  /** parselog.py's `main`, from the loaded records to the per-pass reports. */
  method Run(txs: seq<WsjtRecord>, rxs: seq<WsjtRecord>, ps: seq<Pycom>, cfg: Config)
    returns (echoes: seq<Echo>, combined: seq<Combined>, passes: seq<seq<Combined>>, reports: seq<PassReport>)
    requires ParsedStamps(txs)
    ensures echoes == SortBy(Matches(txs, rxs, cfg), EchoTs)
    ensures |combined| == |echoes| && forall i :: 0 <= i < |echoes| ==>
      combined[i] == Combined(echoes[i], MatchTelemetry(echoes[i], ps, cfg))
    ensures IsSegmentation(passes, combined, cfg.maxGapBetweenEchoes)
    ensures forall i :: 0 <= i < |passes| ==> SortedBy(passes[i], CombinedTs)
    ensures forall i :: 0 <= i < |passes| ==> DecodableStamps(passes[i])
    ensures |reports| == |passes|
    ensures forall i :: 0 <= i < |passes| ==> reports[i] == ReportPass(passes[i], ps, cfg)
    ensures echoes == [] ==> reports == []
  {
    echoes := FindEchoes(txs, rxs, cfg);
    combined := Correlate(echoes, ps, cfg);
    passes := GroupByPass(combined, cfg.maxGapBetweenEchoes);
    EchoStampsDecodable(txs, rxs, cfg, combined);
    PassStampsDecodable(passes);
    AllPassesSorted(passes, combined, cfg.maxGapBetweenEchoes);
    reports := ReportAll(passes, ps, cfg);
  }
}
