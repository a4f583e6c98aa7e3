/** The agent's view of one module, as a value: no entry, or a load balancer.

    `ModStep` says what each request or message does to the entry, `Pulls` when it
    asks the DNS server for a route. The operations on a present entry are runs of
    load-balancer operations, so what is proved of those runs holds here. */
module Agent {
  import opened Wrappers
  import opened Words
  import opened Sequences
  import opened Hosts
  import opened LoadBalancer

  /** No entry, or the load balancer of the module. */
  type Mod = Option<Lb>

  predicate ModInv(cfg: Config, m: Mod) {
    m.Some? ==> Inv(cfg, m.value)
  }

  datatype BatchResult = BatchResult(addr: Addr, succCnt: nat)

  datatype ModOp =
    | GetHostReq
    | ReportReq(host: Addr, retcode: int, tcost: Option<nat>)
    | BatchReq(results: seq<BatchResult>)
    | ToolRouteReq
    | CacheRouteReq(version: int)
    | RouteUpdate(hosts: seq<Addr>)
    | Disconnect

  /** A failed call counts once per 100 ms it took, at least once and at most 50 times. */
  function ErrCnt(tcost: Option<nat>): (n: nat)
    ensures 1 <= n <= 50
  {
    if tcost.None? || tcost.value / 100 == 0 then 1
    else if tcost.value / 100 > 50 then 50
    else tcost.value / 100
  }

  /** For every time a failed call took. */
  lemma ErrCntMeans(t: nat)
    ensures ErrCnt(None) == 1
    ensures t < 200 ==> ErrCnt(Some(t)) == 1
    ensures 200 <= t < 5000 ==> 100 * ErrCnt(Some(t)) <= t < 100 * (ErrCnt(Some(t)) + 1)
    ensures t >= 5000 ==> ErrCnt(Some(t)) == 50
  {
  }

  /** The report a request stands for. */
  function Outcome(retcode: int, tcost: Option<nat>): HostOp {
    if ErrCnt(tcost) == 1 then Once(retcode == 0) else Errs(ErrCnt(tcost))
  }

  /** A call that took less than 200 ms counts once, with its return code; a slower one
      as failures, one for every full 100 ms up to 50. */
  lemma OutcomeMeans(retcode: int, t: nat)
    ensures Outcome(retcode, None) == Once(retcode == 0)
    ensures t < 200 ==> Outcome(retcode, Some(t)) == Once(retcode == 0)
    ensures t >= 200 ==> Outcome(retcode, Some(t)).Errs?
    ensures 200 <= t < 5000 ==>
              var n := Outcome(retcode, Some(t)).n; 100 * n <= t < 100 * (n + 1)
    ensures t >= 5000 ==> Outcome(retcode, Some(t)).n == 50
  {
    ErrCntMeans(t);
  }

  /** The route is complete and older than the update period. */
  predicate Stale(cfg: Config, now: int, s: Lb) {
    s.status == IsNew && now - s.effectData > cfg.updateTimo
  }

  function BatchOps(results: seq<BatchResult>): seq<LbOp> {
    if results == [] then []
    else BatchOps(results[..|results| - 1])
         + [Report(results[|results| - 1].addr, Succs(results[|results| - 1].succCnt))]
  }

  /** What an operation does to a present entry, except for deleting it. */
  function LbOps(cfg: Config, now: int, s: Lb, op: ModOp): seq<LbOp> {
    var refresh := if Stale(cfg, now, s) then [Pull] else [];
    match op
    case GetHostReq => if s.hosts == map[] then [] else [Select] + refresh
    case ReportReq(host, retcode, tcost) => [Report(host, Outcome(retcode, tcost)), TellReporter]
    case BatchReq(results) => BatchOps(results) + [TellReporter]
    case ToolRouteReq => refresh
    case CacheRouteReq(_) => if s.hosts == map[] then [] else refresh
    case RouteUpdate(hosts) => [Refresh(hosts)]
    case Disconnect => [ClearPulling]
  }

  function AllAt(now: int, ops: seq<LbOp>): (r: seq<TimedOp>)
    ensures |r| == |ops|
  {
    seq(|ops|, i requires 0 <= i < |ops| => TimedOp(now, ops[i]))
  }

  function ModStep(cfg: Config, now: int, m: Mod, op: ModOp): (r: Mod)
    requires ModInv(cfg, m)
    ensures ModInv(cfg, r)
  {
    match m
    case None => if op.GetHostReq? || op.ToolRouteReq? || op.CacheRouteReq? then Some(NEW_LB) else None
    case Some(s) => if op == RouteUpdate([]) then None else Some(LbRun(cfg, s, AllAt(now, LbOps(cfg, now, s, op))))
  }

  /** The operation sends one pull request. */
  predicate Pulls(cfg: Config, now: int, m: Mod, op: ModOp) {
    match m
    case None => op.GetHostReq? || op.ToolRouteReq? || op.CacheRouteReq?
    case Some(s) => Pull in LbOps(cfg, now, s, op)
  }

  /** Requests that assert, on an entry without hosts, that its first route is being pulled. */
  predicate Aborts(m: Mod, op: ModOp) {
    (op.GetHostReq? || op.CacheRouteReq?) && m.Some? && m.value.hosts == map[] && m.value.status != IsPulling
  }

  datatype Event = Event(now: int, op: ModOp)

  function ModRun(cfg: Config, m: Mod, run: seq<Event>): (r: Mod)
    requires ModInv(cfg, m)
    ensures ModInv(cfg, r)
  {
    if run == [] then m
    else
      var last := run[|run| - 1];
      ModStep(cfg, last.now, ModRun(cfg, m, run[..|run| - 1]), last.op)
  }

  // ---------- What the operations do, field by field ----------

  lemma RunOfOne(cfg: Config, now: int, s: Lb, op: LbOp)
    requires Inv(cfg, s)
    ensures LbRun(cfg, s, AllAt(now, [op])) == LbStep(cfg, now, s, op)
  {
    var run := AllAt(now, [op]);
    assert run[..0] == [];
    assert LbRun(cfg, s, run[..0]) == s;
  }

  lemma {:induction false} RunConcat(cfg: Config, now: int, s: Lb, ops: seq<LbOp>, op: LbOp)
    requires Inv(cfg, s)
    ensures LbRun(cfg, s, AllAt(now, ops + [op])) == LbStep(cfg, now, LbRun(cfg, s, AllAt(now, ops)), op)
  {
    var run := AllAt(now, ops + [op]);
    assert run[..|ops|] == AllAt(now, ops);
  }

  lemma RunOfNone(cfg: Config, now: int, s: Lb)
    requires Inv(cfg, s)
    ensures LbRun(cfg, s, AllAt(now, [])) == s
  {
  }

  /** The optional pull at the end of a request, and the optional status message. */
  function PulledIfStale(cfg: Config, now: int, s: Lb): Lb {
    if Stale(cfg, now, s) then s.(status := IsPulling) else s
  }

  function ToldReporter(cfg: Config, now: int, s: Lb): Lb {
    if ReporterDue(cfg, now, s) then s.(lstRptTime := now) else s
  }

  lemma PullOnlyIfStale(cfg: Config, now: int, s: Lb, op: ModOp)
    requires Inv(cfg, s)
    ensures s.hosts != map[] ==> ModStep(cfg, now, Some(s), CacheRouteReq(0)) == Some(PulledIfStale(cfg, now, s))
    ensures op.CacheRouteReq? ==> ModStep(cfg, now, Some(s), op) == ModStep(cfg, now, Some(s), CacheRouteReq(0))
    ensures ModStep(cfg, now, Some(s), ToolRouteReq) == Some(PulledIfStale(cfg, now, s))
    ensures s.hosts == map[] && (op.GetHostReq? || op.CacheRouteReq?) ==> ModStep(cfg, now, Some(s), op) == Some(s)
  {
    RunOfOne(cfg, now, s, Pull);
    RunOfNone(cfg, now, s);
  }

  lemma SelectThenPull(cfg: Config, now: int, s: Lb)
    requires Inv(cfg, s) && s.hosts != map[]
    ensures ModStep(cfg, now, Some(s), GetHostReq) == Some(PulledIfStale(cfg, now, AfterChoice(cfg, s)))
  {
    RunOfOne(cfg, now, s, Select);
    RunConcat(cfg, now, s, [Select], Pull);
    assert [Select] + [] == [Select];
  }

  lemma ReportThenTell(cfg: Config, now: int, s: Lb, host: Addr, retcode: int, tcost: Option<nat>)
    requires Inv(cfg, s)
    ensures ModStep(cfg, now, Some(s), ReportReq(host, retcode, tcost))
         == Some(ToldReporter(cfg, now, Reported(cfg, now, s, host.Key(), Outcome(retcode, tcost))))
  {
    var report := Report(host, Outcome(retcode, tcost));
    RunOfOne(cfg, now, s, report);
    RunConcat(cfg, now, s, [report], TellReporter);
    assert [report] + [TellReporter] == [report, TellReporter];
  }

  /** The part of an entry that routing and pulling are about. */
  datatype RouteView = RouteView(keys: set<Uint64>, version: Option<int>, status: Status, effectData: int)

  function ViewOf(s: Lb): RouteView {
    RouteView(s.hosts.Keys, s.version, s.status, s.effectData)
  }

  function OpOnView(now: int, v: RouteView, op: LbOp): RouteView {
    match op
    case Refresh(hosts) =>
      if hosts == [] then v
      else RouteView(KeySet(hosts), if KeySet(hosts) == v.keys then v.version else Some(now), IsNew, now)
    case Pull => v.(status := IsPulling)
    case ClearPulling => v.(status := IsNew)
    case _ => v
  }

  lemma LbStepOnView(cfg: Config, now: int, s: Lb, op: LbOp)
    requires Inv(cfg, s)
    ensures ViewOf(LbStep(cfg, now, s, op)) == OpOnView(now, ViewOf(s), op)
  {
    hide Keep, FirstAppearances, HostAt, Without, Rotated, HostStep;
    if op.Report? && op.addr.Key() in s.hosts {
      var k := op.addr.Key();
      assert s.hosts[k := HostStep(cfg, now, s.hosts[k], op.op)].Keys == s.hosts.Keys;
    }
  }

  /** One more operation, seen through the view. */
  lemma MoreOnView(cfg: Config, now: int, s: Lb, ops: seq<LbOp>, op: LbOp)
    requires Inv(cfg, s)
    ensures ViewOf(LbRun(cfg, s, AllAt(now, ops + [op])))
         == OpOnView(now, ViewOf(LbRun(cfg, s, AllAt(now, ops))), op)
  {
    hide LbStep, LbRun, AllAt, OpOnView;
    RunConcat(cfg, now, s, ops, op);
    LbStepOnView(cfg, now, LbRun(cfg, s, AllAt(now, ops)), op);
  }

  lemma OneOnView(cfg: Config, now: int, s: Lb, op: LbOp)
    requires Inv(cfg, s)
    ensures ViewOf(LbRun(cfg, s, AllAt(now, [op]))) == OpOnView(now, ViewOf(s), op)
  {
    hide LbStep, LbRun, AllAt, OpOnView;
    RunOfOne(cfg, now, s, op);
    LbStepOnView(cfg, now, s, op);
  }

  /** Reports change nothing a route is made of. */
  lemma {:induction false} BatchKeepsView(cfg: Config, now: int, s: Lb, results: seq<BatchResult>)
    requires Inv(cfg, s)
    ensures ViewOf(LbRun(cfg, s, AllAt(now, BatchOps(results)))) == ViewOf(s)
  {
    if results == [] {
      RunOfNone(cfg, now, s);
    } else {
      hide LbStep, LbRun, AllAt;
      var n := |results| - 1;
      BatchKeepsView(cfg, now, s, results[..n]);
      MoreOnView(cfg, now, s, BatchOps(results[..n]), Report(results[n].addr, Succs(results[n].succCnt)));
    }
  }

  /** How each operation changes that part of a present entry. */
  lemma StepOnView(cfg: Config, now: int, s: Lb, op: ModOp)
    requires Inv(cfg, s) && op != RouteUpdate([])
    ensures ModStep(cfg, now, Some(s), op).Some?
    ensures var v, r := ViewOf(s), ViewOf(ModStep(cfg, now, Some(s), op).value);
            var isOld := s.status == IsNew && now - s.effectData > cfg.updateTimo;
            match op
            case GetHostReq => r == (if s.hosts != map[] && isOld then v.(status := IsPulling) else v)
            case CacheRouteReq(_) => r == (if s.hosts != map[] && isOld then v.(status := IsPulling) else v)
            case ToolRouteReq => r == (if isOld then v.(status := IsPulling) else v)
            case ReportReq(_, _, _) => r == v
            case BatchReq(_) => r == v
            case Disconnect => r == v.(status := IsNew)
            case RouteUpdate(hosts) =>
              r == RouteView(KeySet(hosts), if KeySet(hosts) == v.keys then v.version else Some(now), IsNew, now)
  {
    hide LbStep, LbRun, AllAt, KeySet;
    RunOfNone(cfg, now, s);
    match op
    case GetHostReq =>
      OneOnView(cfg, now, s, Select);
      MoreOnView(cfg, now, s, [Select], Pull);
      assert [Select] + [] == [Select];
    case CacheRouteReq(_) => OneOnView(cfg, now, s, Pull);
    case ToolRouteReq => OneOnView(cfg, now, s, Pull);
    case ReportReq(host, retcode, tcost) =>
      var report := Report(host, Outcome(retcode, tcost));
      OneOnView(cfg, now, s, report);
      MoreOnView(cfg, now, s, [report], TellReporter);
      assert [report] + [TellReporter] == [report, TellReporter];
    case BatchReq(results) =>
      BatchKeepsView(cfg, now, s, results);
      MoreOnView(cfg, now, s, BatchOps(results), TellReporter);
    case Disconnect => OneOnView(cfg, now, s, ClearPulling);
    case RouteUpdate(hosts) => OneOnView(cfg, now, s, Refresh(hosts));
  }

  lemma {:induction false} ReportsNeverPull(results: seq<BatchResult>)
    ensures Pull !in BatchOps(results)
  {
    if results != [] { ReportsNeverPull(results[..|results| - 1]); }
  }

  /** Exactly when a known module's route is asked for again: one of the three
      requests finds it complete and older than the update period; a request for a
      host or a route asks only for a module with hosts. */
  lemma PullsExactly(cfg: Config, now: int, s: Lb, op: ModOp)
    requires Inv(cfg, s)
    ensures Pulls(cfg, now, Some(s), op)
       <==> && (op.ToolRouteReq? || ((op.GetHostReq? || op.CacheRouteReq?) && s.hosts != map[]))
            && s.status == IsNew && now - s.effectData > cfg.updateTimo
    ensures Pulls(cfg, now, Some(s), op) ==>
              ModStep(cfg, now, Some(s), op).Some? && ModStep(cfg, now, Some(s), op).value.status == IsPulling
  {
    if op.BatchReq? { ReportsNeverPull(op.results); }
    if op != RouteUpdate([]) {
      StepOnView(cfg, now, s, op);
      StatusOfView(ModStep(cfg, now, Some(s), op).value);
    }
    hide ModStep, Inv;
  }

  lemma StatusOfView(s: Lb)
    ensures ViewOf(s).status == s.status
  {
  }
}
