/**
 * Pass segmentation (`group_by_pass`): the combined echoes are cut into
 * passes between two neighbours exactly when the time gap exceeds the limit,
 * or when both neighbours carry tracking samples for different satellites.
 * `GroupByPass` is proved to return a segmentation, and
 * `SegmentationUnique` shows that the segmentation is determined by its input.
 */
module Passes {
  import opened Records
  import opened Sorting

  /** A new pass starts at `curr`. */
  predicate Breaks(prev: Combined, curr: Combined, maxGap: nat)
  {
    || curr.echo.ts - prev.echo.ts > maxGap
    || (prev.fix.Some? && curr.fix.Some? && prev.fix.value.pycom.sat != curr.fix.value.pycom.sat)
  }

  function Flatten<T>(ss: seq<seq<T>>): seq<T>
  {
    if ss == [] then [] else ss[0] + Flatten(ss[1..])
  }

  lemma {:induction false} FlattenSnoc<T>(ss: seq<seq<T>>, s: seq<T>)
    ensures Flatten(ss + [s]) == Flatten(ss) + s
  {
    if ss == [] {
      assert [s][1..] == [];
    } else {
      assert (ss + [s])[1..] == ss[1..] + [s];
      FlattenSnoc(ss[1..], s);
    }
  }

  /** No break between neighbours of `run`. */
  ghost predicate IsRun(run: seq<Combined>, maxGap: nat)
  {
    forall k :: 0 < k < |run| ==> !Breaks(run[k - 1], run[k], maxGap)
  }

  /** Non-empty runs, each starting with a break from the one before. */
  ghost predicate AreRuns(passes: seq<seq<Combined>>, maxGap: nat)
  {
    && (forall i :: 0 <= i < |passes| ==> passes[i] != [] && IsRun(passes[i], maxGap))
    && (forall i :: 0 < i < |passes| ==>
          Breaks(passes[i - 1][|passes[i - 1]| - 1], passes[i][0], maxGap))
  }

  /**
   * `passes` cuts `s` into non-empty runs, with no break inside a run and a
   * break at every boundary between runs.
   */
  ghost predicate IsSegmentation(passes: seq<seq<Combined>>, s: seq<Combined>, maxGap: nat)
  {
    AreRuns(passes, maxGap) && Flatten(passes) == s
  }

  lemma ExtendRun(run: seq<Combined>, c: Combined, maxGap: nat)
    requires run != [] && IsRun(run, maxGap) && !Breaks(run[|run| - 1], c, maxGap)
    ensures IsRun(run + [c], maxGap)
  {
  }

  lemma CloseRun(passes: seq<seq<Combined>>, run: seq<Combined>, maxGap: nat)
    requires AreRuns(passes, maxGap) && run != [] && IsRun(run, maxGap)
    requires passes != [] ==> Breaks(passes[|passes| - 1][|passes[|passes| - 1]| - 1], run[0], maxGap)
    ensures AreRuns(passes + [run], maxGap)
  {
  }

  /** The state of `group_by_pass` after the first `i` echoes: closed passes, then the open one. */
  ghost predicate Grouped(passes: seq<seq<Combined>>, current: seq<Combined>, s: seq<Combined>, i: nat, maxGap: nat)
  {
    && 1 <= i <= |s|
    && current != [] && current[|current| - 1] == s[i - 1]
    && Flatten(passes) + current == s[..i]
    && AreRuns(passes, maxGap) && IsRun(current, maxGap)
    && (passes != [] ==> Breaks(passes[|passes| - 1][|passes[|passes| - 1]| - 1], current[0], maxGap))
  }

  /** Without a break, the next echo joins the open pass. */
  lemma GroupedExtend(passes: seq<seq<Combined>>, current: seq<Combined>, s: seq<Combined>, i: nat, maxGap: nat)
    requires Grouped(passes, current, s, i, maxGap) && i < |s| && !Breaks(s[i - 1], s[i], maxGap)
    ensures Grouped(passes, current + [s[i]], s, i + 1, maxGap)
  {
    assert s[..i + 1] == s[..i] + [s[i]];
    ExtendRun(current, s[i], maxGap);
  }

  /** At a break, the open pass is closed and the next echo opens a new one. */
  lemma GroupedClose(passes: seq<seq<Combined>>, current: seq<Combined>, s: seq<Combined>, i: nat, maxGap: nat)
    requires Grouped(passes, current, s, i, maxGap) && i < |s| && Breaks(s[i - 1], s[i], maxGap)
    ensures Grouped(passes + [current], [s[i]], s, i + 1, maxGap)
  {
    assert s[..i + 1] == s[..i] + [s[i]];
    FlattenSnoc(passes, current);
    CloseRun(passes, current, maxGap);
  }

  /** parselog.py's `group_by_pass`. */
  method GroupByPass(s: seq<Combined>, maxGap: nat) returns (passes: seq<seq<Combined>>)
    ensures IsSegmentation(passes, s, maxGap)
    ensures s == [] ==> passes == []
  {
    if s == [] {
      return [];
    }
    passes := [];
    var current := [s[0]];
    var i := 1;
    while i < |s|
      invariant Grouped(passes, current, s, i, maxGap)
    {
      var prev, curr := s[i - 1], s[i];
      var timeGapOk := curr.echo.ts - prev.echo.ts <= maxGap;
      if prev.fix.Some? && curr.fix.Some? {
        var sameSat := prev.fix.value.pycom.sat == curr.fix.value.pycom.sat;
        if sameSat && timeGapOk {
          GroupedExtend(passes, current, s, i, maxGap);
          current := current + [curr];
        } else {
          GroupedClose(passes, current, s, i, maxGap);
          passes := passes + [current];
          current := [curr];
        }
        i := i + 1;
        continue;
      }
      if timeGapOk {
        GroupedExtend(passes, current, s, i, maxGap);
        current := current + [curr];
      } else {
        GroupedClose(passes, current, s, i, maxGap);
        passes := passes + [current];
        current := [curr];
      }
      i := i + 1;
    }
    FlattenSnoc(passes, current);
    CloseRun(passes, current, maxGap);
    passes := passes + [current];
    assert s[..|s|] == s;
  }

  /** Dropping the first pass leaves a segmentation of the rest of the input. */
  lemma SegmentationTail(passes: seq<seq<Combined>>, s: seq<Combined>, maxGap: nat)
    requires IsSegmentation(passes, s, maxGap) && passes != []
    ensures |passes[0]| <= |s| && passes[0] == s[..|passes[0]|]
    ensures IsSegmentation(passes[1..], s[|passes[0]|..], maxGap)
  {
    assert Flatten(passes) == passes[0] + Flatten(passes[1..]);
    assert s[|passes[0]|..] == Flatten(passes[1..]);
    var tl := passes[1..];
    forall i | 0 < i < |tl|
      ensures Breaks(tl[i - 1][|tl[i - 1]| - 1], tl[i][0], maxGap)
    {
      assert tl[i - 1] == passes[i] && tl[i] == passes[i + 1];
    }
  }

  /**
   * The first pass runs up to the first break of `s`: no break inside it,
   * and a break right after it unless it is all of `s`.
   */
  lemma SegmentationFirst(passes: seq<seq<Combined>>, s: seq<Combined>, maxGap: nat)
    requires IsSegmentation(passes, s, maxGap) && passes != []
    ensures 0 < |passes[0]| <= |s|
    ensures forall k :: 0 < k < |passes[0]| ==> !Breaks(s[k - 1], s[k], maxGap)
    ensures |passes[0]| < |s| ==> Breaks(s[|passes[0]| - 1], s[|passes[0]|], maxGap)
  {
    SegmentationTail(passes, s, maxGap);
    var n := |passes[0]|;
    forall k | 0 < k < n ensures !Breaks(s[k - 1], s[k], maxGap) {
      assert s[k - 1] == passes[0][k - 1] && s[k] == passes[0][k];
    }
    if n < |s| {
      assert Flatten(passes[1..]) == passes[1] + Flatten(passes[2..]);
      assert s[n] == passes[1][0];
      assert s[n - 1] == passes[0][n - 1];
    }
  }

  /** The segmentation of a sequence is unique. */
  lemma {:induction false} SegmentationUnique(p: seq<seq<Combined>>, q: seq<seq<Combined>>, s: seq<Combined>, maxGap: nat)
    requires IsSegmentation(p, s, maxGap) && IsSegmentation(q, s, maxGap)
    ensures p == q
    decreases |s|
  {
    if p == [] || q == [] {
    } else {
      SegmentationFirst(p, s, maxGap);
      SegmentationFirst(q, s, maxGap);
      var n, m := |p[0]|, |q[0]|;
      assert n == m;
      SegmentationTail(p, s, maxGap);
      SegmentationTail(q, s, maxGap);
      SegmentationUnique(p[1..], q[1..], s[n..], maxGap);
      assert p == [p[0]] + p[1..] && q == [q[0]] + q[1..];
    }
  }

  /** An input of one echo forms one pass of one echo. */
  lemma SingleEchoOnePass(passes: seq<seq<Combined>>, c: Combined, maxGap: nat)
    requires IsSegmentation(passes, [c], maxGap)
    ensures passes == [[c]]
  {
    assert Flatten([[c]]) == [c] + Flatten([]);
    SegmentationUnique(passes, [[c]], [c], maxGap);
  }

  /**
   * Within a pass of a time-ordered input, timestamps do not decrease: each
   * pass is a contiguous run of the input.
   */
  lemma {:induction false} PassesOfSortedInput(passes: seq<seq<Combined>>, s: seq<Combined>, maxGap: nat, i: nat)
    requires IsSegmentation(passes, s, maxGap)
    requires SortedBy(s, CombinedTs)
    requires i < |passes|
    ensures SortedBy(passes[i], CombinedTs)
    decreases i
  {
    SegmentationTail(passes, s, maxGap);
    if i == 0 {
      assert forall a :: 0 <= a < |passes[0]| ==> passes[0][a] == s[a];
    } else {
      var rest := s[|passes[0]|..];
      assert SortedBy(rest, CombinedTs) by {
        forall a, b | 0 <= a < b < |rest| ensures CombinedTs(rest[a]) <= CombinedTs(rest[b]) {
          assert rest[a] == s[|passes[0]| + a] && rest[b] == s[|passes[0]| + b];
        }
      }
      PassesOfSortedInput(passes[1..], rest, maxGap, i - 1);
      assert passes[1..][i - 1] == passes[i];
    }
  }

  /**
   * Three echoes close in time, the first without tracking data and the
   * other two tracked on different satellites, form two passes of sizes 2
   * and 1: the switch of satellite splits even with no time gap.
   */
  lemma SatelliteSwitchSplits(passes: seq<seq<Combined>>, c1: Combined, c2: Combined, c3: Combined, maxGap: nat)
    requires c1.fix.None? && c2.fix.Some? && c3.fix.Some?
    requires c2.fix.value.pycom.sat != c3.fix.value.pycom.sat
    requires c1.echo.ts <= c2.echo.ts <= c3.echo.ts && c3.echo.ts - c1.echo.ts <= maxGap
    requires IsSegmentation(passes, [c1, c2, c3], maxGap)
    ensures passes == [[c1, c2], [c3]]
  {
    var expected := [[c1, c2], [c3]];
    assert expected[1..] == [[c3]] && [[c3]][1..] == [];
    assert Flatten(expected) == [c1, c2] + Flatten([[c3]]);
    assert Flatten([[c3]]) == [c3];
    assert IsRun([c1, c2], maxGap);
    SegmentationUnique(passes, expected, [c1, c2, c3], maxGap);
  }
}
