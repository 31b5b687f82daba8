/**
 * Integer part of the pass statistics (`calculate_pass_stats`): counts, the
 * SNR and tuned-frequency ranges, and the center drift, which is taken from
 * the first and last telemetry-bearing echoes only. Also the per-row drift,
 * residual Doppler and offset delta that `main` prints and `export_pass`
 * writes.
 */
module PassStats {
  import opened Records

  /** The telemetry-bearing members of a pass, in pass order. */
  function ValidItems(pass: seq<Combined>): (v: seq<Combined>)
    ensures |v| <= |pass|
    ensures forall i :: 0 <= i < |v| ==> v[i].fix.Some?
  {
    if pass == [] then []
    else (if pass[0].fix.Some? then [pass[0]] else []) + ValidItems(pass[1..])
  }

  /** Every valid item is a member of the pass, at index `j`. */
  lemma {:induction false} ValidItemsSound(pass: seq<Combined>, k: nat) returns (j: nat)
    requires k < |ValidItems(pass)|
    ensures j < |pass| && pass[j] == ValidItems(pass)[k]
  {
    if pass[0].fix.Some? && k == 0 {
      j := 0;
    } else {
      var k' := if pass[0].fix.Some? then k - 1 else k;
      var j' := ValidItemsSound(pass[1..], k');
      j := j' + 1;
    }
  }

  lemma {:induction false} ValidItemsAppend(a: seq<Combined>, b: seq<Combined>)
    ensures ValidItems(a + b) == ValidItems(a) + ValidItems(b)
  {
    if a == [] {
      assert a + b == b;
    } else {
      assert (a + b)[1..] == a[1..] + b;
      ValidItemsAppend(a[1..], b);
    }
  }

  /** There are no valid items exactly when no member carries telemetry. */
  lemma {:induction false} ValidItemsEmpty(pass: seq<Combined>)
    ensures ValidItems(pass) == [] <==> forall i :: 0 <= i < |pass| ==> pass[i].fix.None?
  {
    if pass != [] {
      ValidItemsEmpty(pass[1..]);
      if pass[0].fix.None? {
        assert forall i :: 1 <= i < |pass| ==> pass[i] == pass[1..][i - 1];
      }
    }
  }

  /** Every telemetry-bearing member is among the valid items. */
  lemma {:induction false} ValidItemsComplete(pass: seq<Combined>, c: Combined)
    requires c in pass && c.fix.Some?
    ensures c in ValidItems(pass)
  {
    if pass[0] != c {
      ValidItemsComplete(pass[1..], c);
    }
  }

  function Snrs(v: seq<Combined>): (r: seq<int>)
    ensures |r| == |v| && forall i :: 0 <= i < |v| ==> r[i] == v[i].echo.snr
  {
    seq(|v|, i requires 0 <= i < |v| => v[i].echo.snr)
  }

  function TotalFreqs(v: seq<Combined>): (r: seq<int>)
    requires forall i :: 0 <= i < |v| ==> v[i].fix.Some?
    ensures |r| == |v|
    ensures forall i :: 0 <= i < |v| ==> r[i] == v[i].fix.value.pycom.main + v[i].fix.value.pycom.sub
  {
    seq(|v|, i requires 0 <= i < |v| => v[i].fix.value.pycom.main + v[i].fix.value.pycom.sub)
  }

  /** Smallest element, as numpy's `min`. */
  function MinOf(s: seq<int>): (m: int)
    requires s != []
    ensures m in s && forall x :: x in s ==> m <= x
  {
    if |s| == 1 then s[0]
    else
      var m' := MinOf(s[1..]);
      assert s == [s[0]] + s[1..];
      if s[0] <= m' then s[0] else m'
  }

  /** Largest element, as numpy's `max`. */
  function MaxOf(s: seq<int>): (m: int)
    requires s != []
    ensures m in s && forall x :: x in s ==> x <= m
  {
    if |s| == 1 then s[0]
    else
      var m' := MaxOf(s[1..]);
      assert s == [s[0]] + s[1..];
      if s[0] >= m' then s[0] else m'
  }

  /**
   * Python's `round(n / 2)`: the nearest integer to n/2, and the even one
   * of the two nearest when n is odd.
   */
  function HalfRoundEven(n: int): (r: int)
    ensures n % 2 == 0 ==> 2 * r == n
    ensures n % 2 == 1 ==> (2 * r == n - 1 || 2 * r == n + 1) && r % 2 == 0
  {
    if n % 2 == 0 then n / 2
    else if (n / 2) % 2 == 0 then n / 2
    else n / 2 + 1
  }

  /**
   * The drift of one telemetry-bearing echo before centering:
   * main + rx_offset + sub - tx_offset.
   */
  function RawDrift(c: Combined): int
    requires c.fix.Some?
  {
    c.fix.value.pycom.main + c.echo.rxOffset + c.fix.value.pycom.sub - c.echo.txOffset
  }

  datatype PassStats =
    | NoStats                                     // an empty pass: `{}`
    | NoSatData(numEchoes: nat, centerDrift: int) // the "No satellite data available" record
    | SatStats(
        numEchoes: nat,
        numWithSat: nat,
        snrMin: int,
        snrMax: int,
        totalFreqMin: int,
        totalFreqMax: int,
        centerDrift: int)

  /** The center drift of a pass with telemetry-bearing members. */
  function CenterDrift(pass: seq<Combined>): int
    requires ValidItems(pass) != []
  {
    var v := ValidItems(pass);
    HalfRoundEven(RawDrift(v[0]) + RawDrift(v[|v| - 1]))
  }

  /** parselog.py's `calculate_pass_stats`, without its floating-point fields. */
  function Statistics(pass: seq<Combined>): (r: PassStats)
    ensures r.NoStats? <==> pass == []
    ensures r.NoSatData? <==> pass != [] && forall i :: 0 <= i < |pass| ==> pass[i].fix.None?
    ensures r.NoSatData? ==> r.numEchoes == |pass| && r.centerDrift == 0
    ensures r.SatStats? ==> r.numEchoes == |pass| && 1 <= r.numWithSat <= |pass|
    ensures r.SatStats? ==> r.snrMin <= r.snrMax && r.totalFreqMin <= r.totalFreqMax
    ensures r.SatStats? ==> && ValidItems(pass) != []
                            && r.numWithSat == |ValidItems(pass)|
                            && r.centerDrift == CenterDrift(pass)
  {
    if pass == [] then NoStats
    else
      var v := ValidItems(pass);
      ValidItemsEmpty(pass);
      if v == [] then NoSatData(|pass|, 0)
      else
        SatStats(|pass|, |v|, MinOf(Snrs(v)), MaxOf(Snrs(v)),
                 MinOf(TotalFreqs(v)), MaxOf(TotalFreqs(v)), CenterDrift(pass))
  }

  /**
   * The SNR range bounds every telemetry-bearing member and is attained by
   * the members at `lo` and `hi`.
   */
  lemma SnrRange(pass: seq<Combined>) returns (lo: nat, hi: nat)
    requires Statistics(pass).SatStats?
    ensures lo < |pass| && pass[lo].fix.Some? && pass[lo].echo.snr == Statistics(pass).snrMin
    ensures hi < |pass| && pass[hi].fix.Some? && pass[hi].echo.snr == Statistics(pass).snrMax
    ensures forall i :: 0 <= i < |pass| && pass[i].fix.Some? ==>
              Statistics(pass).snrMin <= pass[i].echo.snr <= Statistics(pass).snrMax
  {
    var v := ValidItems(pass);
    var snrs := Snrs(v);
    var r := Statistics(pass);
    assert r.snrMin == MinOf(snrs) && r.snrMax == MaxOf(snrs);
    var a :| 0 <= a < |snrs| && snrs[a] == r.snrMin;
    lo := ValidItemsSound(pass, a);
    var b :| 0 <= b < |snrs| && snrs[b] == r.snrMax;
    hi := ValidItemsSound(pass, b);
    forall i | 0 <= i < |pass| && pass[i].fix.Some?
      ensures r.snrMin <= pass[i].echo.snr <= r.snrMax
    {
      ValidItemsComplete(pass, pass[i]);
      var k :| 0 <= k < |v| && v[k] == pass[i];
      assert snrs[k] in snrs;
    }
  }

  /**
   * The tuned-frequency range (main + sub) bounds every telemetry-bearing
   * member and is attained by the members at `lo` and `hi`.
   */
  lemma TotalFreqRange(pass: seq<Combined>) returns (lo: nat, hi: nat)
    requires Statistics(pass).SatStats?
    ensures lo < |pass| && pass[lo].fix.Some?
    ensures pass[lo].fix.value.pycom.main + pass[lo].fix.value.pycom.sub == Statistics(pass).totalFreqMin
    ensures hi < |pass| && pass[hi].fix.Some?
    ensures pass[hi].fix.value.pycom.main + pass[hi].fix.value.pycom.sub == Statistics(pass).totalFreqMax
    ensures forall i :: 0 <= i < |pass| && pass[i].fix.Some? ==>
              Statistics(pass).totalFreqMin <= pass[i].fix.value.pycom.main + pass[i].fix.value.pycom.sub
                                            <= Statistics(pass).totalFreqMax
  {
    var v := ValidItems(pass);
    var freqs := TotalFreqs(v);
    var r := Statistics(pass);
    assert r.totalFreqMin == MinOf(freqs) && r.totalFreqMax == MaxOf(freqs);
    var a :| 0 <= a < |freqs| && freqs[a] == r.totalFreqMin;
    lo := ValidItemsSound(pass, a);
    var b :| 0 <= b < |freqs| && freqs[b] == r.totalFreqMax;
    hi := ValidItemsSound(pass, b);
    forall i | 0 <= i < |pass| && pass[i].fix.Some?
      ensures r.totalFreqMin <= pass[i].fix.value.pycom.main + pass[i].fix.value.pycom.sub <= r.totalFreqMax
    {
      ValidItemsComplete(pass, pass[i]);
      var k :| 0 <= k < |v| && v[k] == pass[i];
      assert freqs[k] in freqs;
    }
  }

  /**
   * The center drift comes from the first and last telemetry-bearing
   * members alone: members added between them leave it unchanged.
   */
  lemma CenterDriftIgnoresMiddle(a: seq<Combined>, middle: seq<Combined>, b: seq<Combined>)
    requires ValidItems(a) != [] && ValidItems(b) != []
    ensures ValidItems(a + middle + b) != [] && ValidItems(a + b) != []
    ensures CenterDrift(a + middle + b) == CenterDrift(a + b)
  {
    var va, vm, vb := ValidItems(a), ValidItems(middle), ValidItems(b);
    ValidItemsAppend(a, middle);
    ValidItemsAppend(a + middle, b);
    ValidItemsAppend(a, b);
    var long, short := ValidItems(a + middle + b), ValidItems(a + b);
    assert long == (va + vm) + vb && short == va + vb;
    assert long[0] == va[0] == short[0];
    assert long[|long| - 1] == vb[|vb| - 1] == short[|short| - 1];
  }

  /** Per-row drift after centering, as both output sites compute it. */
  function Drift(c: Combined, centerDrift: int): int
    requires c.fix.Some?
  {
    RawDrift(c) - centerDrift
  }

  /** Centering: the drifts of the first and last valid members sum to -1, 0 or 1. */
  lemma DriftCentered(pass: seq<Combined>)
    requires ValidItems(pass) != []
    ensures var v := ValidItems(pass);
      var sum := Drift(v[0], CenterDrift(pass)) + Drift(v[|v| - 1], CenterDrift(pass));
      -1 <= sum <= 1 && (sum == 0 <==> (RawDrift(v[0]) + RawDrift(v[|v| - 1])) % 2 == 0)
  {
  }
}
