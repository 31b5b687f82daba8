/**
 * Telemetry correlation (`match_echo_to_pycom` and the loop of `main` that
 * calls it): each echo is given the tracking sample nearest to it in time,
 * the earliest one on ties as Python's `min` keeps the first minimum, and
 * only when that sample is strictly closer than the configured limit.
 */
module Telemetry {
  import opened Records
  import opened Sorting

  /** Distance in seconds between a tracking sample and an instant. */
  function Gap(p: Pycom, ts: int): nat { Abs(p.ts - ts) }

  /**
   * Python's `min(ps, key=...)` by time distance to `ts`: scans left to
   * right and replaces its candidate only on a strictly smaller distance.
   */
  function Nearest(ps: seq<Pycom>, ts: int): (k: nat)
    requires ps != []
    ensures k < |ps|
    ensures forall j :: 0 <= j < |ps| ==> Gap(ps[k], ts) <= Gap(ps[j], ts)
    ensures forall j :: 0 <= j < k ==> Gap(ps[k], ts) < Gap(ps[j], ts)
  {
    if |ps| == 1 then 0
    else
      var k := Nearest(ps[..|ps| - 1], ts);
      if Gap(ps[|ps| - 1], ts) < Gap(ps[k], ts) then |ps| - 1 else k
  }

  /** parselog.py's `match_echo_to_pycom`. */
  function MatchTelemetry(e: Echo, ps: seq<Pycom>, cfg: Config): (r: Option<SatFix>)
    // a sample is attached exactly when some sample is close enough
    ensures r.Some? <==> exists j :: 0 <= j < |ps| && Gap(ps[j], e.ts) < cfg.maxTimeDiffForMatch
    // it is the earliest of the nearest samples, with its distance
    ensures r.Some? ==> r.value.timeDiff == Gap(r.value.pycom, e.ts) < cfg.maxTimeDiffForMatch
    ensures r.Some? ==> forall j :: 0 <= j < |ps| ==> r.value.timeDiff <= Gap(ps[j], e.ts)
    ensures r.Some? ==> exists k :: 0 <= k < |ps| && ps[k] == r.value.pycom
                                    && forall j :: 0 <= j < k ==> r.value.timeDiff < Gap(ps[j], e.ts)
  {
    if ps == [] then None
    else
      var k := Nearest(ps, e.ts);
      var diff := Gap(ps[k], e.ts);
      if diff < cfg.maxTimeDiffForMatch then Some(SatFix(ps[k], diff)) else None
  }

  /**
   * A sample that is the only one within the limit is the one attached,
   * wherever it stands in the list.
   */
  lemma OnlyCloseSampleChosen(e: Echo, ps: seq<Pycom>, cfg: Config, j: nat)
    requires j < |ps| && Gap(ps[j], e.ts) < cfg.maxTimeDiffForMatch
    requires forall k :: 0 <= k < |ps| && k != j ==> Gap(ps[k], e.ts) >= cfg.maxTimeDiffForMatch
    ensures MatchTelemetry(e, ps, cfg) == Some(SatFix(ps[j], Gap(ps[j], e.ts)))
  {
    var k := Nearest(ps, e.ts);
    assert k == j;
  }

  /** The loop of `main` that pairs every echo with its tracking sample. */
  method Correlate(echoes: seq<Echo>, ps: seq<Pycom>, cfg: Config) returns (combined: seq<Combined>)
    ensures |combined| == |echoes|
    ensures forall i :: 0 <= i < |echoes| ==>
      combined[i].echo == echoes[i] && combined[i].fix == MatchTelemetry(echoes[i], ps, cfg)
    ensures SortedBy(echoes, EchoTs) ==> SortedBy(combined, CombinedTs)
  {
    combined := [];
    for i := 0 to |echoes|
      invariant |combined| == i
      invariant forall k :: 0 <= k < i ==>
        combined[k].echo == echoes[k] && combined[k].fix == MatchTelemetry(echoes[k], ps, cfg)
    {
      var fix := MatchTelemetry(echoes[i], ps, cfg);
      if fix.Some? {
        combined := combined + [Combined(echoes[i], fix)];
      } else {
        combined := combined + [Combined(echoes[i], None)];
      }
    }
  }
}
