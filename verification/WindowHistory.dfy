/** Runs of reports on one host, and what `windErrCnt` remembers about them.

    The history of closed windows is a function of the run; the counter is shown
    to be the length of that history's longest suffix of bad windows. */
module WindowHistory {
  import opened Words
  import opened Hosts
  import opened HostRules
  import opened LoadBalancer

  datatype Event = Event(now: int, op: HostOp)

  /** The real counters of a window at the moment it was closed. */
  datatype Window = Window(rSucc: nat, rErr: nat)

  /** The host after a run of reports, oldest first. */
  function HostRun(cfg: Config, h: Host, run: seq<Event>): (r: Host)
    requires Healthy(cfg, h)
    ensures Healthy(cfg, r) && r.Key() == h.Key()
  {
    if run == [] then h
    else
      var before, last := HostRun(cfg, h, run[..|run| - 1]), run[|run| - 1];
      StepKeepsHealth(cfg, last.now, before, last.op);
      HostStep(cfg, last.now, before, last.op)
  }

  lemma RunExtended(cfg: Config, h: Host, run: seq<Event>, e: Event)
    requires Healthy(cfg, h)
    ensures HostRun(cfg, h, run + [e]) == HostStep(cfg, e.now, HostRun(cfg, h, run), e.op)
  {
    assert (run + [e])[..|run|] == run;
  }

  /** The windows closed in a run since the host last became overloaded. */
  function ClosedWindows(cfg: Config, h: Host, run: seq<Event>): seq<Window>
    requires Healthy(cfg, h)
  {
    if run == [] then []
    else
      var earlier, last := run[..|run| - 1], run[|run| - 1];
      var before := HostRun(cfg, h, earlier);
      var counted := Count(cfg, last.now, before, last.op);
      if !before.overload && HostRun(cfg, h, run).overload then []
      else if WindowOver(cfg, last.now, counted) then
        ClosedWindows(cfg, h, earlier) + [Window(counted.rSucc, counted.rErr)]
      else ClosedWindows(cfg, h, earlier)
  }

  predicate Bad(cfg: Config, w: Window) {
    BadWindow(cfg, w.rSucc, w.rErr)
  }

  /** The last n windows are bad, and no longer suffix consists of bad windows only. */
  predicate IsLongestBadSuffix(cfg: Config, log: seq<Window>, n: nat) {
    && n <= |log|
    && (forall i :: |log| - n <= i < |log| ==> Bad(cfg, log[i]))
    && (n < |log| ==> !Bad(cfg, log[|log| - n - 1]))
  }

  lemma LongestBadSuffixIsUnique(cfg: Config, log: seq<Window>, m: nat, n: nat)
    requires IsLongestBadSuffix(cfg, log, m) && IsLongestBadSuffix(cfg, log, n)
    ensures m == n
  {
    assert m < |log| ==> !Bad(cfg, log[|log| - m - 1]);
    assert n < |log| ==> !Bad(cfg, log[|log| - n - 1]);
  }

  lemma LongestBadSuffixExtended(cfg: Config, log: seq<Window>, n: nat, w: Window)
    requires IsLongestBadSuffix(cfg, log, n)
    ensures IsLongestBadSuffix(cfg, log + [w], if Bad(cfg, w) then n + 1 else 0)
  {
    var all := log + [w];
    assert all[|all| - 1] == w;
    if Bad(cfg, w) && n < |log| {
      assert all[|all| - (n + 1) - 1] == log[|log| - n - 1];
    }
  }

  /** In every run of a new host, the counter is the length of the longest
      suffix of bad windows in its history. */
  lemma {:induction false} CounterIsLongestBadSuffix(cfg: Config, h: Host, run: seq<Event>)
    requires Healthy(cfg, h) && h.windErrCnt == 0
    ensures IsLongestBadSuffix(cfg, ClosedWindows(cfg, h, run), HostRun(cfg, h, run).windErrCnt)
  {
    if run != [] {
      var earlier, last := run[..|run| - 1], run[|run| - 1];
      CounterIsLongestBadSuffix(cfg, h, earlier);
      var before := HostRun(cfg, h, earlier);
      var counted := Count(cfg, last.now, before, last.op);
      if WindowOver(cfg, last.now, counted) {
        LongestBadSuffixExtended(cfg, ClosedWindows(cfg, h, earlier), before.windErrCnt,
                                 Window(counted.rSucc, counted.rErr));
      }
    }
  }

  /** The window rule: when a report closes a window, the host becomes overloaded
      exactly when that window completes `windErrLim` bad ones in a row. */
  lemma WindowRule(cfg: Config, h: Host, run: seq<Event>, e: Event, streak: nat)
    requires Healthy(cfg, h) && h.windErrCnt == 0
    requires WindowOver(cfg, e.now, Count(cfg, e.now, HostRun(cfg, h, run), e.op))
    requires var counted := Count(cfg, e.now, HostRun(cfg, h, run), e.op);
             IsLongestBadSuffix(cfg, ClosedWindows(cfg, h, run) + [Window(counted.rSucc, counted.rErr)], streak)
    ensures HostRun(cfg, h, run + [e]).overload <==> streak == cfg.windErrLim
  {
    var before := HostRun(cfg, h, run);
    var counted := Count(cfg, e.now, before, e.op);
    var w := Window(counted.rSucc, counted.rErr);
    CounterIsLongestBadSuffix(cfg, h, run);
    LongestBadSuffixExtended(cfg, ClosedWindows(cfg, h, run), before.windErrCnt, w);
    LongestBadSuffixIsUnique(cfg, ClosedWindows(cfg, h, run) + [w], streak,
                             if Bad(cfg, w) then before.windErrCnt + 1 else 0);
    assert (run + [e])[..|run|] == run;
  }

  // ---------- The real counters ----------

  /** The last report of a run begins a new window or changes the flag. */
  predicate Resets(cfg: Config, h: Host, run: seq<Event>)
    requires Healthy(cfg, h) && run != []
  {
    var before, after := HostRun(cfg, h, run[..|run| - 1]), HostRun(cfg, h, run);
    after.overload != before.overload || after.windowTs != before.windowTs
  }

  /** The successes (failures) reported behind the last reset of a run. */
  function SuccessesSince(cfg: Config, h: Host, run: seq<Event>): nat
    requires Healthy(cfg, h)
  {
    if run == [] || Resets(cfg, h, run) then 0
    else SuccessesSince(cfg, h, run[..|run| - 1]) + Succeeded(run[|run| - 1].op)
  }

  function FailuresSince(cfg: Config, h: Host, run: seq<Event>): nat
    requires Healthy(cfg, h)
  {
    if run == [] || Resets(cfg, h, run) then 0
    else FailuresSince(cfg, h, run[..|run| - 1]) + Failed(run[|run| - 1].op)
  }

  /** In every run of a new host, the real counters are the outcomes reported since
      the last reset. */
  lemma {:induction false} RealCountersSinceReset(cfg: Config, h: Host, run: seq<Event>)
    requires Healthy(cfg, h) && h.rSucc == 0 && h.rErr == 0
    ensures HostRun(cfg, h, run).rSucc == SuccessesSince(cfg, h, run)
    ensures HostRun(cfg, h, run).rErr == FailuresSince(cfg, h, run)
  {
    if run != [] {
      var earlier, last := run[..|run| - 1], run[|run| - 1];
      RealCountersSinceReset(cfg, h, earlier);
      var before := HostRun(cfg, h, earlier);
      if HostStep(cfg, last.now, before, last.op).overload == before.overload {
        FieldsWithoutFlip(cfg, last.now, before, last.op);
      } else {
        FieldsAfterFlip(cfg, last.now, before, last.op);
      }
      hide HostStep, Healthy, LeftSuccesses, LeftFailures, EndsBadWindow;
    }
  }

  // ---------- The host inside a running balancer ----------

  /** The reports on host k among the operations of a balancer. */
  function ReportsOn(run: seq<TimedOp>, k: Uint64): seq<Event> {
    if run == [] then []
    else
      var last := run[|run| - 1];
      ReportsOn(run[..|run| - 1], k)
      + if last.op.Report? && last.op.addr.Key() == k then [Event(last.now, last.op.op)] else []
  }

  predicate StaysKnown(cfg: Config, s: Lb, run: seq<TimedOp>, k: Uint64)
    requires Inv(cfg, s)
  {
    forall i :: 0 <= i <= |run| ==> k in LbRun(cfg, s, run[..i]).hosts
  }

  lemma StepOnHost(cfg: Config, now: int, s: Lb, op: LbOp, k: Uint64)
    requires Inv(cfg, s) && k in s.hosts && k in LbStep(cfg, now, s, op).hosts
    ensures Bounded(cfg, s.hosts[k])
    ensures LbStep(cfg, now, s, op).hosts[k]
         == if op.Report? && op.addr.Key() == k then HostStep(cfg, now, s.hosts[k], op.op) else s.hosts[k]
  {
    hide HostStep, Pack, HostAt, Keys;
  }

  /** Selections, route updates and reports on other hosts do not touch a host:
      its state is that of a run of its own reports. */
  lemma {:induction false} HostInBalancer(cfg: Config, s: Lb, run: seq<TimedOp>, k: Uint64)
    requires Inv(cfg, s) && k in s.hosts && Healthy(cfg, s.hosts[k]) && StaysKnown(cfg, s, run, k)
    ensures k in LbRun(cfg, s, run).hosts
    ensures LbRun(cfg, s, run).hosts[k] == HostRun(cfg, s.hosts[k], ReportsOn(run, k))
  {
    assert run[..|run|] == run;
    if run != [] {
      hide HostStep, LbStep, Inv, Healthy, Pack;
      var n := |run| - 1;
      var earlier, last := run[..n], run[n];
      forall i | 0 <= i <= n ensures earlier[..i] == run[..i] {}
      HostInBalancer(cfg, s, earlier, k);
      StepOnHost(cfg, last.now, LbRun(cfg, s, earlier), last.op, k);
      if last.op.Report? && last.op.addr.Key() == k {
        RunExtended(cfg, s.hosts[k], ReportsOn(earlier, k), Event(last.now, last.op.op));
      } else {
        assert ReportsOn(run, k) == ReportsOn(earlier, k) + [] == ReportsOn(earlier, k);
      }
    }
  }

  /** So in every run of a balancer, the counter of a host that had none is the
      length of the longest suffix of bad windows among those it closed. */
  lemma CounterInBalancer(cfg: Config, s: Lb, run: seq<TimedOp>, k: Uint64)
    requires Inv(cfg, s) && k in s.hosts && Healthy(cfg, s.hosts[k]) && StaysKnown(cfg, s, run, k)
    requires s.hosts[k].windErrCnt == 0
    ensures k in LbRun(cfg, s, run).hosts
    ensures IsLongestBadSuffix(cfg, ClosedWindows(cfg, s.hosts[k], ReportsOn(run, k)),
                               LbRun(cfg, s, run).hosts[k].windErrCnt)
  {
    hide *;
    HostInBalancer(cfg, s, run, k);
    CounterIsLongestBadSuffix(cfg, s.hosts[k], ReportsOn(run, k));
  }
}
