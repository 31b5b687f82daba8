/**
 * Echo matching (`find_echoes`): every transmission is paired with the first
 * reception, in log order, that has the same mode and message, lies within
 * the time tolerance, was heard on a different carrier frequency and carries
 * the operator's callsign marker. Transmissions without such a reception
 * give nothing; the echoes are then sorted, stably, by timestamp.
 */
module EchoMatch {
  import opened Records
  import opened Sorting

  /** Python's substring test `sub in s`. */
  predicate Contains(s: string, sub: string)
    decreases |s|
  {
    if |sub| > |s| then false
    else if s[..|sub|] == sub then true
    else Contains(s[1..], sub)
  }

  ghost predicate OccursAt(s: string, sub: string, i: int)
  {
    0 <= i && i + |sub| <= |s| && s[i..i + |sub|] == sub
  }

  /** `Contains` holds exactly when `sub` occurs somewhere in `s`. */
  lemma {:induction false} ContainsIffOccurs(s: string, sub: string)
    ensures Contains(s, sub) <==> exists i :: OccursAt(s, sub, i)
    decreases |s|
  {
    if |sub| > |s| {
    } else if s[..|sub|] == sub {
      assert OccursAt(s, sub, 0);
    } else {
      ContainsIffOccurs(s[1..], sub);
      if Contains(s[1..], sub) {
        var i :| OccursAt(s[1..], sub, i);
        assert s[1..][i..i + |sub|] == s[i + 1..i + 1 + |sub|];
        assert OccursAt(s, sub, i + 1);
      } else {
        forall i | OccursAt(s, sub, i) ensures false {
          if i != 0 {
            assert s[1..][i - 1..i - 1 + |sub|] == s[i..i + |sub|];
            assert OccursAt(s[1..], sub, i - 1);
          }
        }
      }
    }
  }

  /** The test of parselog.py's inner loop: `rx` is an echo of `tx`. */
  predicate Qualifies(tx: WsjtRecord, rx: WsjtRecord, cfg: Config)
  {
    && rx.mode == tx.mode
    && rx.msg == tx.msg
    && Abs(rx.ts - tx.ts) <= cfg.timeTolerance
    && rx.freq != tx.freq
    && Contains(rx.msg, cfg.marker)
  }

  function MakeEcho(tx: WsjtRecord, rx: WsjtRecord): Echo
  {
    Echo(tx.ts, tx.tsStr, tx.freq, tx.f, rx.freq, rx.f, rx.dt, rx.snr, tx.msg)
  }

  /** Index of the first reception that qualifies as an echo of `tx`. */
  function FirstMatch(tx: WsjtRecord, rxs: seq<WsjtRecord>, cfg: Config): (r: Option<nat>)
    ensures r.Some? ==> r.value < |rxs| && Qualifies(tx, rxs[r.value], cfg)
    ensures r.Some? ==> forall k :: 0 <= k < r.value ==> !Qualifies(tx, rxs[k], cfg)
    ensures r.None? ==> forall k :: 0 <= k < |rxs| ==> !Qualifies(tx, rxs[k], cfg)
  {
    if rxs == [] then None
    else if Qualifies(tx, rxs[0], cfg) then Some(0)
    else
      match FirstMatch(tx, rxs[1..], cfg)
      case None => None
      case Some(j) => Some(j + 1)
  }

  /** What one transmission contributes: its echo, or nothing. */
  function EchoOf(tx: WsjtRecord, rxs: seq<WsjtRecord>, cfg: Config): seq<Echo>
  {
    match FirstMatch(tx, rxs, cfg)
    case None => []
    case Some(j) => [MakeEcho(tx, rxs[j])]
  }

  /** The echoes of `txs` in transmission order, before sorting. */
  function Matches(txs: seq<WsjtRecord>, rxs: seq<WsjtRecord>, cfg: Config): seq<Echo>
  {
    if txs == [] then []
    else Matches(txs[..|txs| - 1], rxs, cfg) + EchoOf(txs[|txs| - 1], rxs, cfg)
  }

  /**
   * Matching works transmission by transmission: the echoes of a
   * concatenation are the echoes of each part, in order.
   */
  lemma {:induction false} MatchesAppend(a: seq<WsjtRecord>, b: seq<WsjtRecord>, rxs: seq<WsjtRecord>, cfg: Config)
    ensures Matches(a + b, rxs, cfg) == Matches(a, rxs, cfg) + Matches(b, rxs, cfg)
    decreases |b|
  {
    if b == [] {
      assert a + b == a;
    } else {
      var b' := b[..|b| - 1];
      assert (a + b)[..|a + b| - 1] == a + b';
      assert (a + b)[|a + b| - 1] == b[|b| - 1];
      MatchesAppend(a, b', rxs, cfg);
    }
  }

  /** Each transmission gives at most one echo. */
  lemma {:induction false} MatchesAtMostOnePerTx(txs: seq<WsjtRecord>, rxs: seq<WsjtRecord>, cfg: Config)
    ensures |Matches(txs, rxs, cfg)| <= |txs|
  {
    if txs != [] {
      MatchesAtMostOnePerTx(txs[..|txs| - 1], rxs, cfg);
    }
  }

  /** Every echo comes from a qualifying transmission/reception pair. */
  lemma {:induction false} MatchesSound(txs: seq<WsjtRecord>, rxs: seq<WsjtRecord>, cfg: Config, e: Echo)
    requires e in Matches(txs, rxs, cfg)
    ensures exists i, j :: 0 <= i < |txs| && 0 <= j < |rxs| && Qualifies(txs[i], rxs[j], cfg)
                           && e == MakeEcho(txs[i], rxs[j])
  {
    var init := txs[..|txs| - 1];
    if e in Matches(init, rxs, cfg) {
      MatchesSound(init, rxs, cfg, e);
      var i, j :| 0 <= i < |init| && 0 <= j < |rxs| && Qualifies(init[i], rxs[j], cfg)
                  && e == MakeEcho(init[i], rxs[j]);
      assert txs[i] == init[i];
    } else {
      var i := |txs| - 1;
      var j := FirstMatch(txs[i], rxs, cfg).value;
      assert Qualifies(txs[i], rxs[j], cfg) && e == MakeEcho(txs[i], rxs[j]);
    }
  }

  /**
   * Every transmission with a qualifying reception yields an echo, built
   * from its first qualifying reception in list order.
   */
  lemma {:induction false} MatchesComplete(txs: seq<WsjtRecord>, rxs: seq<WsjtRecord>, cfg: Config, i: nat, j: nat)
    returns (first: nat)
    requires i < |txs| && j < |rxs| && Qualifies(txs[i], rxs[j], cfg)
    ensures first <= j && Qualifies(txs[i], rxs[first], cfg)
    ensures forall k :: 0 <= k < first ==> !Qualifies(txs[i], rxs[k], cfg)
    ensures MakeEcho(txs[i], rxs[first]) in Matches(txs, rxs, cfg)
  {
    var init := txs[..|txs| - 1];
    if i == |txs| - 1 {
      first := FirstMatch(txs[i], rxs, cfg).value;
      assert EchoOf(txs[i], rxs, cfg) == [MakeEcho(txs[i], rxs[first])];
    } else {
      assert init[i] == txs[i];
      first := MatchesComplete(init, rxs, cfg, i, j);
    }
  }

  /**
   * A transmission with exactly one qualifying reception gets that echo,
   * wherever the reception stands in the list.
   */
  lemma OnlyCandidateChosen(tx: WsjtRecord, rxs: seq<WsjtRecord>, cfg: Config, j: nat)
    requires j < |rxs| && Qualifies(tx, rxs[j], cfg)
    requires forall k :: 0 <= k < |rxs| && k != j ==> !Qualifies(tx, rxs[k], cfg)
    ensures EchoOf(tx, rxs, cfg) == [MakeEcho(tx, rxs[j])]
  {
  }

  /** The matches of one more transmission: those before it, then its own. */
  lemma MatchesStep(txs: seq<WsjtRecord>, i: nat, rxs: seq<WsjtRecord>, cfg: Config)
    requires i < |txs|
    ensures Matches(txs[..i + 1], rxs, cfg) == Matches(txs[..i], rxs, cfg) + EchoOf(txs[i], rxs, cfg)
  {
    assert txs[..i + 1][..i] == txs[..i];
  }

  /** Sorting the matches keeps their number, at most one per transmission. */
  lemma SortedMatchesBound(txs: seq<WsjtRecord>, rxs: seq<WsjtRecord>, cfg: Config)
    ensures |SortBy(Matches(txs, rxs, cfg), EchoTs)| <= |txs|
  {
    var found := Matches(txs, rxs, cfg);
    var sorted := SortBy(found, EchoTs);
    MatchesAtMostOnePerTx(txs, rxs, cfg);
    assert |sorted| == |multiset(sorted)| == |multiset(found)| == |found|;
  }

  /**
   * The inner loop of `find_echoes`: scans the receptions in order and stops
   * at the first one that qualifies.
   */
  method ScanReceptions(tx: WsjtRecord, rxs: seq<WsjtRecord>, cfg: Config) returns (own: seq<Echo>)
    ensures own == EchoOf(tx, rxs, cfg)
  {
    own := [];
    var j := 0;
    while j < |rxs|
      invariant 0 <= j <= |rxs|
      invariant forall k :: 0 <= k < j ==> !Qualifies(tx, rxs[k], cfg)
    {
      var rx := rxs[j];
      if !Qualifies(tx, rx, cfg) {
        j := j + 1;
        continue;
      }
      assert FirstMatch(tx, rxs, cfg) == Some(j);
      own := [MakeEcho(tx, rx)];
      return;
    }
  }

  /**
   * parselog.py's `find_echoes`: the nested scan with its `break`, then the
   * stable sort by timestamp.
   */
  method FindEchoes(txs: seq<WsjtRecord>, rxs: seq<WsjtRecord>, cfg: Config) returns (echoes: seq<Echo>)
    ensures echoes == SortBy(Matches(txs, rxs, cfg), EchoTs)
    ensures SortedBy(echoes, EchoTs)
    ensures multiset(echoes) == multiset(Matches(txs, rxs, cfg))
    ensures |echoes| <= |txs|
  {
    var found: seq<Echo> := [];
    var i := 0;
    while i < |txs|
      invariant 0 <= i <= |txs|
      invariant found == Matches(txs[..i], rxs, cfg)
    {
      MatchesStep(txs, i, rxs, cfg);
      var own := ScanReceptions(txs[i], rxs, cfg);
      found := found + own;
      i := i + 1;
    }
    assert txs[..|txs|] == txs;
    SortedMatchesBound(txs, rxs, cfg);
    echoes := SortBy(found, EchoTs);
  }
}
