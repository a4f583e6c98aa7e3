/** Batched reports against the single reports they stand for.

    A batch of n results computes in one go what n single reports of the same
    kind at the same instant would do. It does not always agree with them: the
    batch looks at the consecutive limit first, and its rate test counts from
    zero. The lemmas here say for every host and every n when they agree. */
module BatchReports {
  import opened Words
  import opened Rates
  import opened Hosts
  import opened WindowHistory
  import opened LoadBalancer

  /** n single reports of the same outcome at one instant. */
  function Repeated(cfg: Config, now: int, h: Host, ok: bool, n: nat): (r: Host)
    requires Healthy(cfg, h)
    ensures Healthy(cfg, r) && r.Key() == h.Key()
  {
    if n == 0 then h
    else
      var r := Repeated(cfg, now, h, ok, n - 1);
      StepKeepsHealth(cfg, now, r, Once(ok));
      HostStep(cfg, now, r, Once(ok))
  }

  /** Equal as far as scheduling and the count-based tests go. */
  predicate SameStanding(a: Host, b: Host) {
    a.overload == b.overload && a.succ == b.succ && a.err == b.err
  }

  function Max(a: int, b: int): int {
    if a >= b then a else b
  }

  function Min(a: int, b: int): int {
    if a <= b then a else b
  }

  // ---------- Failures on an idle host ----------

  /** Further failures until the consecutive limit, and until the rate test of a
      single report, which counts the failures the host already has. */
  function ErrsToLimit(cfg: Config, h: Host): nat
    requires h.continErr < cfg.continErrLim
  {
    cfg.continErrLim - h.continErr
  }

  function ErrsToRate(cfg: Config, h: Host): nat {
    Max(1, FirstOver(cfg.errRate, h.succ) - h.err)
  }

  /** What one single failure does to a host inside its window or its waiting time. */
  lemma OneFailure(cfg: Config, now: int, h: Host)
    requires Healthy(cfg, h) && Recent(cfg, now, h)
    ensures var r := HostStep(cfg, now, h, Once(false));
            if h.overload then
              r.overload && r.succ == h.succ && r.err == h.err + 1 && r.overloadTs == h.overloadTs
            else if h.continErr + 1 >= cfg.continErrLim || h.err + 1 >= FirstOver(cfg.errRate, h.succ) then
              r.overload && r.succ == 0 && r.err == cfg.ovldErrCnt && r.overloadTs == now
            else
              !r.overload && r.succ == h.succ && r.err == h.err + 1
              && r.continErr == h.continErr + 1 && r.windowTs == h.windowTs
  {
    hide Share, FirstOver, Needed, BadWindow;
    ShareAboveRate(cfg.errRate, h.err + 1, h.succ);
  }

  lemma {:induction false} RepeatedFailures(cfg: Config, now: int, h: Host, n: nat)
    requires Healthy(cfg, h) && !h.overload && Recent(cfg, now, h)
    ensures var first := Min(ErrsToLimit(cfg, h), ErrsToRate(cfg, h));
            var r := Repeated(cfg, now, h, false, n);
            if n < first then
              r.overload == false && r.succ == h.succ && r.err == h.err + n
              && r.continErr == h.continErr + n && r.windowTs == h.windowTs
            else
              r.overload && r.succ == 0 && r.err == cfg.ovldErrCnt + (n - first) && r.overloadTs == now
  {
    hide FirstOver, HostStep, Ledger;
    if n > 0 {
      RepeatedFailures(cfg, now, h, n - 1);
      OneFailure(cfg, now, Repeated(cfg, now, h, false, n - 1));
    }
  }

  /** Whether a batch of n failures lands on the same result as n single ones. */
  predicate FailuresAligned(cfg: Config, h: Host, n: nat)
    requires h.continErr < cfg.continErrLim
  {
    var limit, rate, need := ErrsToLimit(cfg, h), ErrsToRate(cfg, h), Needed(cfg.errRate, h.succ);
    if n >= limit then rate >= limit
    else (n < rate && n < need) || (n >= rate && rate == need)
  }

  /** For every idle host inside its window and every n: the batch of n failures
      and n single failures agree exactly when `FailuresAligned` holds. */
  lemma BatchedFailures(cfg: Config, now: int, h: Host, n: nat)
    requires Healthy(cfg, h) && !h.overload && Recent(cfg, now, h) && n >= 1
    ensures SameStanding(HostStep(cfg, now, h, Errs(n)), Repeated(cfg, now, h, false, n))
       <==> FailuresAligned(cfg, h, n)
  {
    RepeatedFailures(cfg, now, h, n);
  }

  /** In particular they agree for every n when the consecutive limit is reached
      no later than the rate. */
  lemma BatchedFailuresWithinLimit(cfg: Config, now: int, h: Host, n: nat)
    requires Healthy(cfg, h) && !h.overload && Recent(cfg, now, h) && n >= 1
    requires (h.err + ErrsToLimit(cfg, h)) as real * (1.0 - cfg.errRate) <= cfg.errRate * h.succ as real
    ensures SameStanding(HostStep(cfg, now, h, Errs(n)), Repeated(cfg, now, h, false, n))
  {
    var limit, r := ErrsToLimit(cfg, h), cfg.errRate;
    OddsCross(r, h.succ, h.err + limit);
    FloorOfOdds(r, h.succ, h.err + limit);
    assert h.err + limit < FirstOver(r, h.succ);
    NeededVersusFirstOver(r, h.succ);
    assert ErrsToRate(cfg, h) > limit;
    BatchedFailures(cfg, now, h, n);
  }

  /** An overloaded host that has not waited too long takes failures the same way either way. */
  lemma {:induction false} FailuresWhileOverloaded(cfg: Config, now: int, h: Host, n: nat)
    requires Healthy(cfg, h) && h.overload && Recent(cfg, now, h)
    ensures Repeated(cfg, now, h, false, n).overloadTs == h.overloadTs
    ensures SameStanding(HostStep(cfg, now, h, Errs(n)), Repeated(cfg, now, h, false, n))
  {
    if n > 0 { FailuresWhileOverloaded(cfg, now, h, n - 1); }
  }

  // ---------- Successes on an overloaded host ----------

  function SuccsToLimit(cfg: Config, h: Host): nat
    requires h.continSucc < cfg.continSuccLim
  {
    cfg.continSuccLim - h.continSucc
  }

  function SuccsToRate(cfg: Config, h: Host): nat {
    Max(1, FirstOver(cfg.succRate, h.err) - h.succ)
  }

  /** What one single success does to a host inside its window or its waiting time. */
  lemma OneSuccess(cfg: Config, now: int, h: Host)
    requires Healthy(cfg, h) && Recent(cfg, now, h)
    ensures var r := HostStep(cfg, now, h, Once(true));
            if !h.overload then
              !r.overload && r.succ == h.succ + 1 && r.err == h.err && r.windowTs == h.windowTs
            else if h.continSucc + 1 >= cfg.continSuccLim || h.succ + 1 >= FirstOver(cfg.succRate, h.err) then
              !r.overload && r.err == 0 && r.succ == cfg.initSuccCnt && r.windowTs == now
            else
              r.overload && r.succ == h.succ + 1 && r.err == h.err
              && r.continSucc == h.continSucc + 1 && r.overloadTs == h.overloadTs
  {
    hide Share, FirstOver, Needed, BadWindow;
    ShareAboveRate(cfg.succRate, h.succ + 1, h.err);
  }

  lemma {:induction false} RepeatedSuccesses(cfg: Config, now: int, h: Host, n: nat)
    requires Healthy(cfg, h) && h.overload && Recent(cfg, now, h)
    ensures var first := Min(SuccsToLimit(cfg, h), SuccsToRate(cfg, h));
            var r := Repeated(cfg, now, h, true, n);
            if n < first then
              r.overload && r.succ == h.succ + n && r.err == h.err
              && r.continSucc == h.continSucc + n && r.overloadTs == h.overloadTs
            else
              !r.overload && r.err == 0 && r.succ == cfg.initSuccCnt + (n - first) && r.windowTs == now
  {
    hide FirstOver, HostStep, Ledger;
    if n > 0 {
      RepeatedSuccesses(cfg, now, h, n - 1);
      OneSuccess(cfg, now, Repeated(cfg, now, h, true, n - 1));
    }
  }

  predicate SuccessesAligned(cfg: Config, h: Host, n: nat)
    requires h.continSucc < cfg.continSuccLim
  {
    var limit, rate, need := SuccsToLimit(cfg, h), SuccsToRate(cfg, h), Needed(cfg.succRate, h.err);
    if n >= limit then rate >= limit
    else (n < rate && n < need) || (n >= rate && rate == need)
  }

  /** The mirror statement, for every overloaded host before its waiting limit. */
  lemma BatchedSuccesses(cfg: Config, now: int, h: Host, n: nat)
    requires Healthy(cfg, h) && h.overload && Recent(cfg, now, h) && n >= 1
    ensures SameStanding(HostStep(cfg, now, h, Succs(n)), Repeated(cfg, now, h, true, n))
       <==> SuccessesAligned(cfg, h, n)
  {
    RepeatedSuccesses(cfg, now, h, n);
  }

  lemma BatchedSuccessesWithinLimit(cfg: Config, now: int, h: Host, n: nat)
    requires Healthy(cfg, h) && h.overload && Recent(cfg, now, h) && n >= 1
    requires (h.succ + SuccsToLimit(cfg, h)) as real * (1.0 - cfg.succRate) <= cfg.succRate * h.err as real
    ensures SameStanding(HostStep(cfg, now, h, Succs(n)), Repeated(cfg, now, h, true, n))
  {
    var limit, r := SuccsToLimit(cfg, h), cfg.succRate;
    OddsCross(r, h.err, h.succ + limit);
    FloorOfOdds(r, h.err, h.succ + limit);
    assert h.succ + limit < FirstOver(r, h.err);
    NeededVersusFirstOver(r, h.err);
    BatchedSuccesses(cfg, now, h, n);
  }

  lemma {:induction false} SuccessesWhileIdle(cfg: Config, now: int, h: Host, n: nat)
    requires Healthy(cfg, h) && !h.overload && Recent(cfg, now, h)
    ensures Repeated(cfg, now, h, true, n).windowTs == h.windowTs
    ensures SameStanding(HostStep(cfg, now, h, Succs(n)), Repeated(cfg, now, h, true, n))
  {
    if n > 0 { SuccessesWhileIdle(cfg, now, h, n - 1); }
  }

  // ---------- The same, with the queues ----------

  /** n single reports on host k of a balancer. */
  function RepeatedReports(cfg: Config, now: int, s: Lb, k: Uint64, ok: bool, n: nat): (r: Lb)
    requires Inv(cfg, s)
    ensures Inv(cfg, r)
  {
    if n == 0 then s
    else
      var r := RepeatedReports(cfg, now, s, k, ok, n - 1);
      ReportedKeepsInv(cfg, now, r, k, Once(ok));
      Reported(cfg, now, r, k, Once(ok))
  }

  /** Single reports that can change the flag only once amount to one change of the host. */
  lemma {:induction false} RepeatedReportsPut(cfg: Config, now: int, s: Lb, k: Uint64, ok: bool, n: nat)
    requires Inv(cfg, s) && k in s.hosts && Healthy(cfg, s.hosts[k])
    requires Recent(cfg, now, s.hosts[k]) && s.hosts[k].overload == ok
    ensures RepeatedReports(cfg, now, s, k, ok, n) == Put(s, k, Repeated(cfg, now, s.hosts[k], ok, n))
  {
    hide *;
    if n == 0 {
      NoReports(cfg, now, s, k, ok);
    } else {
      RepeatedReportsPut(cfg, now, s, k, ok, n - 1);
      OneReportMore(cfg, now, s, k, ok, n);
    }
  }

  lemma OneReportMore(cfg: Config, now: int, s: Lb, k: Uint64, ok: bool, n: nat)
    requires Inv(cfg, s) && k in s.hosts && Healthy(cfg, s.hosts[k]) && n > 0
    requires Recent(cfg, now, s.hosts[k]) && s.hosts[k].overload == ok
    requires RepeatedReports(cfg, now, s, k, ok, n - 1) == Put(s, k, Repeated(cfg, now, s.hosts[k], ok, n - 1))
    ensures RepeatedReports(cfg, now, s, k, ok, n) == Put(s, k, Repeated(cfg, now, s.hosts[k], ok, n))
  {
    FlipsOnce(cfg, now, s.hosts[k], ok, n);
    var r, t := RepeatedReports(cfg, now, s, k, ok, n - 1), Repeated(cfg, now, s.hosts[k], ok, n - 1);
    hide Put, HostStep, Inv, Reported;
    AnotherReportPut(cfg, now, s, r, k, t, Once(ok));
  }

  lemma HealthyHost(cfg: Config, s: Lb, k: Uint64)
    requires Inv(cfg, s) && k in s.hosts
    ensures Healthy(cfg, s.hosts[k])
  {
  }

  lemma NoReports(cfg: Config, now: int, s: Lb, k: Uint64, ok: bool)
    requires Inv(cfg, s) && k in s.hosts && Healthy(cfg, s.hosts[k])
    ensures RepeatedReports(cfg, now, s, k, ok, 0) == Put(s, k, Repeated(cfg, now, s.hosts[k], ok, 0))
  {
    assert s.hosts[k := s.hosts[k]] == s.hosts;
  }

  lemma AnotherReportPut(cfg: Config, now: int, s: Lb, r: Lb, k: Uint64, t: Host, op: HostOp)
    requires k in s.hosts && r == Put(s, k, t) && Inv(cfg, r) && Healthy(cfg, t)
    requires t.overload == s.hosts[k].overload || HostStep(cfg, now, t, op).overload == t.overload
    ensures Reported(cfg, now, r, k, op) == Put(s, k, HostStep(cfg, now, t, op))
  {
    hide HostStep;
    assert r.hosts[k] == t;
    PutTwice(s, k, t, HostStep(cfg, now, t, op));
  }

  lemma FlipsOnce(cfg: Config, now: int, h: Host, ok: bool, n: nat)
    requires Healthy(cfg, h) && h.overload == ok && Recent(cfg, now, h) && n > 0
    ensures var t, u := Repeated(cfg, now, h, ok, n - 1), Repeated(cfg, now, h, ok, n);
            t.overload == h.overload || u.overload == t.overload
  {
    if ok {
      RepeatedSuccesses(cfg, now, h, n - 1);
      RepeatedSuccesses(cfg, now, h, n);
    } else {
      RepeatedFailures(cfg, now, h, n - 1);
      RepeatedFailures(cfg, now, h, n);
    }
  }

  /** The same scheduling state: host k's standing and both queues. */
  predicate SameSchedule(a: Lb, b: Lb, k: Uint64) {
    && k in a.hosts && k in b.hosts && SameStanding(a.hosts[k], b.hosts[k])
    && a.running == b.running && a.down == b.down
  }

  /** One report of n failures on an idle host against n reports of one failure:
      the same standing and the same queues exactly when the host is aligned. */
  lemma BatchedFailuresOnQueues(cfg: Config, now: int, s: Lb, addr: Addr, n: nat)
    requires Inv(cfg, s) && addr.Key() in s.hosts && n >= 1
    requires Recent(cfg, now, s.hosts[addr.Key()]) && !s.hosts[addr.Key()].overload
    ensures SameSchedule(LbStep(cfg, now, s, Report(addr, Errs(n))),
                         RepeatedReports(cfg, now, s, addr.Key(), false, n), addr.Key())
       <==> FailuresAligned(cfg, s.hosts[addr.Key()], n)
  {
    hide HostStep, FailuresAligned;
    RepeatedReportsPut(cfg, now, s, addr.Key(), false, n);
    BatchedFailures(cfg, now, s.hosts[addr.Key()], n);
  }

  lemma BatchedSuccessesOnQueues(cfg: Config, now: int, s: Lb, addr: Addr, n: nat)
    requires Inv(cfg, s) && addr.Key() in s.hosts && n >= 1
    requires Recent(cfg, now, s.hosts[addr.Key()]) && s.hosts[addr.Key()].overload
    ensures SameSchedule(LbStep(cfg, now, s, Report(addr, Succs(n))),
                         RepeatedReports(cfg, now, s, addr.Key(), true, n), addr.Key())
       <==> SuccessesAligned(cfg, s.hosts[addr.Key()], n)
  {
    hide HostStep, SuccessesAligned;
    RepeatedReportsPut(cfg, now, s, addr.Key(), true, n);
    BatchedSuccesses(cfg, now, s.hosts[addr.Key()], n);
  }

  /** In particular, whenever the consecutive limit is reached no later than the rate. */
  lemma BatchedFailuresWithinLimitOnQueues(cfg: Config, now: int, s: Lb, addr: Addr, n: nat)
    requires Inv(cfg, s) && addr.Key() in s.hosts && n >= 1
    requires Recent(cfg, now, s.hosts[addr.Key()]) && !s.hosts[addr.Key()].overload
    requires var h := s.hosts[addr.Key()];
             (h.err + ErrsToLimit(cfg, h)) as real * (1.0 - cfg.errRate) <= cfg.errRate * h.succ as real
    ensures SameSchedule(LbStep(cfg, now, s, Report(addr, Errs(n))),
                         RepeatedReports(cfg, now, s, addr.Key(), false, n), addr.Key())
  {
    hide *;
    var h := s.hosts[addr.Key()];
    HealthyHost(cfg, s, addr.Key());
    BatchedFailuresWithinLimit(cfg, now, h, n);
    BatchedFailures(cfg, now, h, n);
    BatchedFailuresOnQueues(cfg, now, s, addr, n);
  }

  lemma BatchedSuccessesWithinLimitOnQueues(cfg: Config, now: int, s: Lb, addr: Addr, n: nat)
    requires Inv(cfg, s) && addr.Key() in s.hosts && n >= 1
    requires Recent(cfg, now, s.hosts[addr.Key()]) && s.hosts[addr.Key()].overload
    requires var h := s.hosts[addr.Key()];
             (h.succ + SuccsToLimit(cfg, h)) as real * (1.0 - cfg.succRate) <= cfg.succRate * h.err as real
    ensures SameSchedule(LbStep(cfg, now, s, Report(addr, Succs(n))),
                         RepeatedReports(cfg, now, s, addr.Key(), true, n), addr.Key())
  {
    hide *;
    var h := s.hosts[addr.Key()];
    HealthyHost(cfg, s, addr.Key());
    BatchedSuccessesWithinLimit(cfg, now, h, n);
    BatchedSuccesses(cfg, now, h, n);
    BatchedSuccessesOnQueues(cfg, now, s, addr, n);
  }

  // ---------- A reachable disagreement ----------

  const DEFAULTS: Config := Settings(270, 5, 10, 10, 10, 15, 15, 15, 300, 0.92, 0.1, 0.7, 2, 0x7F00_0001)

  /** With the default settings, a host that has seen three times nine failures
      and a success: five single failures overload it, one report of five does not. */
  lemma BatchedFailuresCanDiffer()
    ensures var burst := [Event(0, Errs(9)), Event(0, Once(true))];
            var h := HostRun(DEFAULTS, NewHost(DEFAULTS, 0, 1, 1), burst + burst + burst);
            && Healthy(DEFAULTS, h)
            && !HostStep(DEFAULTS, 0, h, Errs(5)).overload
            && Repeated(DEFAULTS, 0, h, false, 5).overload
  {
    var cfg := DEFAULTS;
    var start := NewHost(cfg, 0, 1, 1);
    var burst := [Event(0, Errs(9)), Event(0, Once(true))];
    AfterBurst(start, [], 270, 0);
    assert [] + burst == burst;
    AfterBurst(start, burst, 271, 9);
    AfterBurst(start, burst + burst, 272, 18);
    FiveFailuresDiffer(HostRun(cfg, start, burst + burst + burst));
  }

  lemma FiveFailuresDiffer(h: Host)
    requires Calm(h, 273, 27)
    ensures !HostStep(DEFAULTS, 0, h, Errs(5)).overload
    ensures Repeated(DEFAULTS, 0, h, false, 5).overload
  {
    assert Odds(DEFAULTS.errRate, 273) == 273.0 / 9.0;
    assert FirstOver(DEFAULTS.errRate, 273) == 31;
    assert Needed(DEFAULTS.errRate, 273) > 5;
    hide Share, FirstOver, Needed, BadWindow;
    RepeatedFailures(DEFAULTS, 0, h, 5);
  }

  /** A host that is idle in its first window, with no failures in a row. */
  predicate Calm(h: Host, succ: nat, err: nat) {
    Healthy(DEFAULTS, h) && !h.overload && h.windowTs == 0 && h.succ == succ && h.err == err && h.continErr == 0
  }

  lemma NineFailuresAndASuccess(h: Host, succ: nat, err: nat)
    requires Calm(h, succ, err) && 270 <= succ <= 273
    ensures var mid := HostStep(DEFAULTS, 0, h, Errs(9));
            Healthy(DEFAULTS, mid) && Calm(HostStep(DEFAULTS, 0, mid, Once(true)), succ + 1, err + 9)
  {
    StepKeepsHealth(DEFAULTS, 0, h, Errs(9));
    NeededIsLeast(DEFAULTS.errRate, succ, 9);
    var mid := HostStep(DEFAULTS, 0, h, Errs(9));
    assert !mid.overload;
    StepKeepsHealth(DEFAULTS, 0, mid, Once(true));
  }

  /** One burst of nine failures and a success on an idle host far from its rate. */
  lemma AfterBurst(start: Host, run: seq<Event>, succ: nat, err: nat)
    requires Healthy(DEFAULTS, start) && Calm(HostRun(DEFAULTS, start, run), succ, err) && 270 <= succ <= 273
    ensures var burst := [Event(0, Errs(9)), Event(0, Once(true))];
            Calm(HostRun(DEFAULTS, start, run + burst), succ + 1, err + 9)
  {
    var first, second := Event(0, Errs(9)), Event(0, Once(true));
    NineFailuresAndASuccess(HostRun(DEFAULTS, start, run), succ, err);
    RunExtended(DEFAULTS, start, run, first);
    RunExtended(DEFAULTS, start, run + [first], second);
    assert run + [first, second] == run + [first] + [second];
  }
}
