/** No host is starved, whatever reports and route updates are interleaved with
    the selections. Each theorem is about every run of operations from every
    state that satisfies the invariant, as long as the host stays in its queue. */
module Fairness {
  import opened Words
  import opened Sequences
  import opened Hosts
  import opened LoadBalancer

  function Selections(run: seq<TimedOp>): nat {
    if run == [] then 0
    else Selections(run[..|run| - 1]) + if run[|run| - 1].op.Select? then 1 else 0
  }

  /** Operation i of the run is a selection that returns host k. */
  predicate Returns(cfg: Config, s: Lb, run: seq<TimedOp>, i: nat, k: Uint64)
    requires Inv(cfg, s) && i < |run|
  {
    run[i].op.Select? && Choose(cfg, LbRun(cfg, s, run[..i])) == Picked(k)
  }

  // ---------- Overloaded hosts ----------

  predicate StaysOverloaded(cfg: Config, s: Lb, run: seq<TimedOp>, k: Uint64)
    requires Inv(cfg, s)
  {
    forall i :: 0 <= i <= |run| ==> k in LbRun(cfg, s, run[..i]).down
  }

  /** How many selections can pass before an overloaded host is tried. */
  function DownRank(cfg: Config, s: Lb, k: Uint64): int
    requires k in s.down
  {
    IndexOf(s.down, k) * (cfg.probeNum + 1) + (cfg.probeNum - s.accessCnt)
  }

  lemma MultiplesInOrder(a: nat, b: nat, q: nat)
    requires a <= b
    ensures a * q <= b * q
  {
  }

  lemma OneMultipleLess(p: int, q: nat)
    ensures (p - 1) * q == p * q - q
  {
  }

  lemma CountWithinProbe(cfg: Config, s: Lb)
    requires Inv(cfg, s)
    ensures s.accessCnt <= cfg.probeNum
  {
  }

  lemma RankIsWithin(p: nat, n: nat, count: nat)
    requires count <= n
    ensures 0 <= p * (n + 1) + (n - count) < (p + 1) * (n + 1)
  {
    assert (p + 1) * (n + 1) == p * (n + 1) + (n + 1);
  }

  lemma DownRankIsWithin(cfg: Config, s: Lb, k: Uint64)
    requires Inv(cfg, s) && k in s.down
    ensures 0 <= DownRank(cfg, s, k) < (IndexOf(s.down, k) + 1) * (cfg.probeNum + 1)
  {
    CountWithinProbe(cfg, s);
    hide Inv, IndexOf;
    RankIsWithin(IndexOf(s.down, k), cfg.probeNum, s.accessCnt);
  }

  lemma SelectionLowersDownRank(cfg: Config, s: Lb, k: Uint64)
    requires Inv(cfg, s) && k in s.down && Choose(cfg, s) != Picked(k)
    ensures k in AfterChoice(cfg, s).down
    ensures DownRank(cfg, AfterChoice(cfg, s), k) == DownRank(cfg, s, k) - 1
  {
    if Probing(cfg, s) {
      IndexOfRotated(s.down, k);
      OneMultipleLess(IndexOf(s.down, k), cfg.probeNum + 1);
    }
  }

  lemma DownIndexNeverRises(cfg: Config, now: int, s: Lb, op: LbOp, k: Uint64)
    requires Inv(cfg, s) && k in s.down && !op.Select?
    requires k in LbStep(cfg, now, s, op).down
    ensures IndexOf(LbStep(cfg, now, s, op).down, k) <= IndexOf(s.down, k)
    ensures LbStep(cfg, now, s, op).accessCnt == s.accessCnt
  {
    match op
    case Report(addr, hop) =>
      var other := addr.Key();
      if other in s.hosts {
        var h := HostStep(cfg, now, s.hosts[other], hop);
        if h.overload && !s.hosts[other].overload { IndexOfAppended(s.down, [other], k); }
        if !h.overload && s.hosts[other].overload { IndexOfWithout(s.down, k, other); }
      }
    case Refresh(response) =>
      if response != [] { IndexOfKeep(s.down, k, KeySet(response)); }
    case _ =>
  }

  lemma OthersNeverRaiseDownRank(cfg: Config, now: int, s: Lb, op: LbOp, k: Uint64)
    requires Inv(cfg, s) && k in s.down && !op.Select?
    requires k in LbStep(cfg, now, s, op).down
    ensures DownRank(cfg, LbStep(cfg, now, s, op), k) <= DownRank(cfg, s, k)
  {
    hide LbStep, IndexOf;
    DownIndexNeverRises(cfg, now, s, op, k);
    MultiplesInOrder(IndexOf(LbStep(cfg, now, s, op).down, k), IndexOf(s.down, k), cfg.probeNum + 1);
  }

  lemma {:induction false} DownRankBoundsSelections(cfg: Config, s: Lb, run: seq<TimedOp>, k: Uint64)
    requires Inv(cfg, s) && k in s.down && StaysOverloaded(cfg, s, run, k)
    requires forall i :: 0 <= i < |run| ==> !Returns(cfg, s, run, i, k)
    ensures k in LbRun(cfg, s, run).down
    ensures Selections(run) + DownRank(cfg, LbRun(cfg, s, run), k) <= DownRank(cfg, s, k)
  {
    assert run[..|run|] == run;
    if run != [] {
      var n := |run| - 1;
      var earlier, last := run[..n], run[n];
      forall i | 0 <= i <= n ensures earlier[..i] == run[..i] {}
      forall i | 0 <= i < n ensures !Returns(cfg, s, earlier, i, k) {
        assert !Returns(cfg, s, run, i, k);
      }
      DownRankBoundsSelections(cfg, s, earlier, k);
      var before := LbRun(cfg, s, earlier);
      if last.op.Select? {
        assert !Returns(cfg, s, run, n, k);
        SelectionLowersDownRank(cfg, before, k);
      } else {
        OthersNeverRaiseDownRank(cfg, last.now, before, last.op, k);
      }
    }
  }

  /** An overloaded host at position p of its queue is tried within
      (p + 1) * (probeNum + 1) selections. */
  lemma OverloadedHostIsTried(cfg: Config, s: Lb, run: seq<TimedOp>, k: Uint64)
    requires Inv(cfg, s) && k in s.down && StaysOverloaded(cfg, s, run, k)
    ensures Selections(run) >= (IndexOf(s.down, k) + 1) * (cfg.probeNum + 1) ==>
              exists i :: 0 <= i < |run| && Returns(cfg, s, run, i, k)
  {
    if forall i :: 0 <= i < |run| ==> !Returns(cfg, s, run, i, k) {
      DownRankBoundsSelections(cfg, s, run, k);
      DownRankIsWithin(cfg, s, k);
      DownRankIsWithin(cfg, LbRun(cfg, s, run), k);
    }
  }

  // ---------- Idle hosts ----------

  predicate StaysIdle(cfg: Config, s: Lb, run: seq<TimedOp>, k: Uint64)
    requires Inv(cfg, s)
  {
    forall i :: 0 <= i <= |run| ==> k in LbRun(cfg, s, run[..i]).running
  }

  /** A probe can come between two selections from the running queue, never two. */
  function RunningRank(cfg: Config, s: Lb, k: Uint64): nat
    requires k in s.running
  {
    2 * IndexOf(s.running, k) + if s.accessCnt >= cfg.probeNum then 1 else 0
  }

  lemma SelectionLowersRunningRank(cfg: Config, s: Lb, k: Uint64)
    requires Inv(cfg, s) && k in s.running && Choose(cfg, s) != Picked(k)
    ensures k in AfterChoice(cfg, s).running
    ensures RunningRank(cfg, AfterChoice(cfg, s), k) < RunningRank(cfg, s, k)
  {
    if !Probing(cfg, s) { IndexOfRotated(s.running, k); }
  }

  lemma OthersNeverRaiseRunningRank(cfg: Config, now: int, s: Lb, op: LbOp, k: Uint64)
    requires Inv(cfg, s) && k in s.running && !op.Select?
    requires k in LbStep(cfg, now, s, op).running
    ensures RunningRank(cfg, LbStep(cfg, now, s, op), k) <= RunningRank(cfg, s, k)
  {
    match op
    case Report(addr, hop) =>
      var other := addr.Key();
      if other in s.hosts {
        var h := HostStep(cfg, now, s.hosts[other], hop);
        if h.overload && !s.hosts[other].overload { IndexOfWithout(s.running, k, other); }
        if !h.overload && s.hosts[other].overload { IndexOfAppended(s.running, [other], k); }
      }
    case Refresh(response) =>
      if response != [] {
        IndexOfKeep(s.running, k, KeySet(response));
        IndexOfAppended(Keep(s.running, KeySet(response)),
                        FirstAppearances(s.hosts.Keys, Keys(response)), k);
      }
    case _ =>
  }

  lemma {:induction false} RunningRankBoundsSelections(cfg: Config, s: Lb, run: seq<TimedOp>, k: Uint64)
    requires Inv(cfg, s) && k in s.running && StaysIdle(cfg, s, run, k)
    requires forall i :: 0 <= i < |run| ==> !Returns(cfg, s, run, i, k)
    ensures k in LbRun(cfg, s, run).running
    ensures Selections(run) + RunningRank(cfg, LbRun(cfg, s, run), k) <= RunningRank(cfg, s, k)
  {
    assert run[..|run|] == run;
    if run != [] {
      var n := |run| - 1;
      var earlier, last := run[..n], run[n];
      forall i | 0 <= i <= n ensures earlier[..i] == run[..i] {}
      forall i | 0 <= i < n ensures !Returns(cfg, s, earlier, i, k) {
        assert !Returns(cfg, s, run, i, k);
      }
      RunningRankBoundsSelections(cfg, s, earlier, k);
      var before := LbRun(cfg, s, earlier);
      if last.op.Select? {
        assert !Returns(cfg, s, run, n, k);
        SelectionLowersRunningRank(cfg, before, k);
      } else {
        OthersNeverRaiseRunningRank(cfg, last.now, before, last.op, k);
      }
    }
  }

  /** An idle host at position p of its queue is returned within 2(p + 1) selections. */
  lemma IdleHostIsReturned(cfg: Config, s: Lb, run: seq<TimedOp>, k: Uint64)
    requires Inv(cfg, s) && k in s.running && StaysIdle(cfg, s, run, k)
    ensures Selections(run) >= 2 * (IndexOf(s.running, k) + 1) ==>
              exists i :: 0 <= i < |run| && Returns(cfg, s, run, i, k)
  {
    if forall i :: 0 <= i < |run| ==> !Returns(cfg, s, run, i, k) {
      RunningRankBoundsSelections(cfg, s, run, k);
    }
  }
}
