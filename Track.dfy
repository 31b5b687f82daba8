/**
 * Track extraction (`extract_full_pass_track`): the tracking samples of the
 * pass's satellite that fall within the pass, widened by a margin on both
 * sides, whatever echoes were heard. Negative elevations are clipped to 0,
 * not dropped. A track needs at least two points.
 */
module Track {
  import opened Records
  import opened Sorting
  import opened PassStats

  /** One point of the track: (az, el, range_km, main, sub, dop_up, dop_down). */
  datatype TrackPoint = TrackPoint(
    az: real, el: real, rangeKm: real, main: int, sub: int, dopUp: int, dopDown: int)

  /**
   * The track of a pass; `start` and `end` are the timestamps of the first
   * and last telemetry-bearing echoes, not the widened window.
   */
  datatype PassTrack = PassTrack(points: seq<TrackPoint>, start: int, end: int, sat: string)

  /** A sample as a track point, elevation clipped as `max(el, 0)`. */
  function ToPoint(p: Pycom): (t: TrackPoint)
    ensures t.el >= 0.0
    ensures t.el == (if p.el < 0.0 then 0.0 else p.el)
    ensures t.az == p.az && t.rangeKm == p.rangeKm && t.main == p.main && t.sub == p.sub
    ensures t.dopUp == p.dopUp && t.dopDown == p.dopDown
  {
    TrackPoint(p.az, if 0.0 > p.el then 0.0 else p.el, p.rangeKm, p.main, p.sub, p.dopUp, p.dopDown)
  }

  predicate InWindow(p: Pycom, sat: string, lo: int, hi: int)
  {
    p.sat == sat && lo <= p.ts <= hi
  }

  /** The list comprehension of `extract_full_pass_track`. */
  function Select(ps: seq<Pycom>, sat: string, lo: int, hi: int): (r: seq<TrackPoint>)
    ensures |r| <= |ps|
    ensures forall k :: 0 <= k < |r| ==> r[k].el >= 0.0
  {
    if ps == [] then []
    else (if InWindow(ps[0], sat, lo, hi) then [ToPoint(ps[0])] else []) + Select(ps[1..], sat, lo, hi)
  }

  /**
   * Selection keeps the samples' order: selecting from a concatenation is
   * selecting from each part. With the one-sample case (a point exactly
   * when the sample is in the window) this determines the track.
   */
  lemma {:induction false} SelectAppend(a: seq<Pycom>, b: seq<Pycom>, sat: string, lo: int, hi: int)
    ensures Select(a + b, sat, lo, hi) == Select(a, sat, lo, hi) + Select(b, sat, lo, hi)
  {
    if a == [] {
      assert a + b == b;
    } else {
      assert (a + b)[1..] == a[1..] + b;
      SelectAppend(a[1..], b, sat, lo, hi);
    }
  }

  /** Every point comes from a sample of the satellite inside the window. */
  lemma {:induction false} SelectSound(ps: seq<Pycom>, sat: string, lo: int, hi: int, k: nat)
    requires k < |Select(ps, sat, lo, hi)|
    ensures exists j :: 0 <= j < |ps| && InWindow(ps[j], sat, lo, hi)
                        && Select(ps, sat, lo, hi)[k] == ToPoint(ps[j])
  {
    if InWindow(ps[0], sat, lo, hi) && k == 0 {
      assert Select(ps, sat, lo, hi)[0] == ToPoint(ps[0]);
    } else {
      var k' := if InWindow(ps[0], sat, lo, hi) then k - 1 else k;
      SelectSound(ps[1..], sat, lo, hi, k');
      var j :| 0 <= j < |ps[1..]| && InWindow(ps[1..][j], sat, lo, hi)
               && Select(ps[1..], sat, lo, hi)[k'] == ToPoint(ps[1..][j]);
      assert ps[j + 1] == ps[1..][j];
    }
  }

  /** Every sample of the satellite inside the window gives a point, whatever its elevation. */
  lemma {:induction false} SelectComplete(ps: seq<Pycom>, sat: string, lo: int, hi: int, j: nat)
    requires j < |ps| && InWindow(ps[j], sat, lo, hi)
    ensures ToPoint(ps[j]) in Select(ps, sat, lo, hi)
  {
    if j > 0 {
      SelectComplete(ps[1..], sat, lo, hi, j - 1);
      assert ps[1..][j - 1] == ps[j];
    }
  }

  /** Satellite, first and last echo time of a pass: taken after sorting its valid members. */
  datatype Anchor = Anchor(sat: string, start: int, end: int)

  function PassAnchor(pass: seq<Combined>): (a: Anchor)
    requires ValidItems(pass) != []
    ensures a.start <= a.end
  {
    var v := ValidItems(pass);
    var sorted := SortBy(v, CombinedTs);
    SortByHeadLeast(v, CombinedTs);
    assert CombinedTs(sorted[0]) <= CombinedTs(sorted[|sorted| - 1]);
    Anchor(sorted[0].fix.value.pycom.sat, sorted[0].echo.ts, sorted[|sorted| - 1].echo.ts)
  }

  /**
   * The anchor's satellite is that of the earliest telemetry-bearing echo
   * `v[i]` (the first one in pass order among those at the earliest time),
   * its start the earliest and its end the latest of their timestamps,
   * attained by `v[l]`.
   */
  lemma AnchorSpec(pass: seq<Combined>) returns (i: nat, l: nat)
    requires ValidItems(pass) != []
    ensures i < |ValidItems(pass)| && l < |ValidItems(pass)|
    ensures PassAnchor(pass).sat == ValidItems(pass)[i].fix.value.pycom.sat
    ensures PassAnchor(pass).start == ValidItems(pass)[i].echo.ts
    ensures PassAnchor(pass).end == ValidItems(pass)[l].echo.ts
    ensures forall j :: 0 <= j < |ValidItems(pass)| ==>
              PassAnchor(pass).start <= ValidItems(pass)[j].echo.ts <= PassAnchor(pass).end
    ensures forall j :: 0 <= j < i ==> PassAnchor(pass).start < ValidItems(pass)[j].echo.ts
  {
    var v := ValidItems(pass);
    i := SortByHead(v, CombinedTs);
    l := SortByLast(v, CombinedTs);
    var sorted := SortBy(v, CombinedTs);
    var a := PassAnchor(pass);
    assert a.start == CombinedTs(v[i]) && a.end == CombinedTs(v[l]);
    forall j | 0 <= j < |v| ensures a.start <= v[j].echo.ts <= a.end {
      assert CombinedTs(v[i]) <= CombinedTs(v[j]) <= CombinedTs(v[l]);
    }
    forall j | 0 <= j < i ensures a.start < v[j].echo.ts {
      assert CombinedTs(v[i]) < CombinedTs(v[j]);
    }
  }

  lemma {:induction false} ValidItemsSorted(pass: seq<Combined>)
    requires SortedBy(pass, CombinedTs)
    ensures SortedBy(ValidItems(pass), CombinedTs)
  {
    if pass != [] {
      ValidItemsSorted(pass[1..]);
      var rest := ValidItems(pass[1..]);
      forall k | 0 <= k < |rest| ensures pass[0].echo.ts <= rest[k].echo.ts {
        var j := ValidItemsSound(pass[1..], k);
        assert CombinedTs(pass[0]) <= CombinedTs(pass[j + 1]);
      }
    }
  }

  /**
   * For a time-ordered pass the anchor is simply the first and last
   * telemetry-bearing echo, so the sort does not change the outcome.
   */
  lemma AnchorOfSortedPass(pass: seq<Combined>)
    requires SortedBy(pass, CombinedTs) && ValidItems(pass) != []
    ensures var v := ValidItems(pass);
      && PassAnchor(pass).sat == v[0].fix.value.pycom.sat
      && PassAnchor(pass).start == v[0].echo.ts
      && PassAnchor(pass).end == v[|v| - 1].echo.ts
  {
    ValidItemsSorted(pass);
    SortBySorted(ValidItems(pass), CombinedTs);
  }

  /** The samples of the pass's satellite within the widened window, as points. */
  function WindowPoints(pass: seq<Combined>, ps: seq<Pycom>, cfg: Config): seq<TrackPoint>
    requires ValidItems(pass) != []
  {
    var a := PassAnchor(pass);
    Select(ps, a.sat, a.start - cfg.passMargin, a.end + cfg.passMargin)
  }

  /** parselog.py's `extract_full_pass_track`. */
  function ExtractTrack(pass: seq<Combined>, ps: seq<Pycom>, cfg: Config): (r: Option<PassTrack>)
    ensures ValidItems(pass) == [] ==> r.None?
    ensures r.Some? ==> |r.value.points| >= 2 && r.value.start <= r.value.end
    ensures r.Some? ==> forall k :: 0 <= k < |r.value.points| ==> r.value.points[k].el >= 0.0
    ensures ValidItems(pass) != [] ==> (r.Some? <==> |WindowPoints(pass, ps, cfg)| >= 2)
    ensures r.Some? ==> && r.value.points == WindowPoints(pass, ps, cfg)
                        && r.value.sat == PassAnchor(pass).sat
                        && r.value.start == PassAnchor(pass).start
                        && r.value.end == PassAnchor(pass).end
  {
    if ValidItems(pass) == [] then None
    else
      var a := PassAnchor(pass);
      var points := WindowPoints(pass, ps, cfg);
      if |points| < 2 then None
      else Some(PassTrack(points, a.start, a.end, a.sat))
  }
}
