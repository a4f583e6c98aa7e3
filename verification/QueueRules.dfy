/** What each operation does to a module's balancer, in terms of its fields: whom a
    selection answers, where a report puts its host, and which times are written. */
module QueueRules {
  import opened Words
  import opened Sequences
  import opened Hosts
  import opened HostRules
  import opened LoadBalancer

  /** A request is refused exactly if every host is overloaded and no probe is due. */
  lemma RefusedExactly(cfg: Config, s: Lb)
    requires Inv(cfg, s) && s.hosts != map[]
    ensures Choose(cfg, s).Refused? <==> s.running == [] && s.accessCnt < cfg.probeNum
  {
    QueuesListEveryHostOnce(cfg, s);
  }

  /** An overloaded host is picked exactly if a probe is due: some host is overloaded
      and `probeNum` requests have passed since the last probe. */
  lemma ProbedExactly(cfg: Config, s: Lb, k: Uint64)
    requires Inv(cfg, s) && Choose(cfg, s) == Picked(k)
    ensures k in s.hosts
    ensures s.hosts[k].overload <==> s.down != [] && s.accessCnt >= cfg.probeNum
    ensures k in s.down <==> s.hosts[k].overload
    ensures k in s.running <==> !s.hosts[k].overload
  {
    if Probing(cfg, s) { assert s.down[0] in s.down; } else { assert s.running[0] in s.running; }
  }

  predicate SameButQueues(r: Lb, s: Lb) {
    && r.hosts == s.hosts && r.effectData == s.effectData && r.lstRptTime == s.lstRptTime
    && r.status == s.status && r.version == s.version
  }

  /** A selection takes the front of one queue, which goes to its back, or nothing;
      the counter starts again with a probe and while no host is overloaded. */
  lemma SelectionInFields(cfg: Config, now: int, s: Lb)
    requires Inv(cfg, s) && s.hosts != map[]
    ensures var r, c := LbStep(cfg, now, s, Select), Choose(cfg, s);
            && SameButQueues(r, s)
            && if s.down != [] && s.accessCnt >= cfg.probeNum then
                 && c == Picked(s.down[0]) && r.down == s.down[1..] + [s.down[0]]
                 && r.running == s.running && r.accessCnt == 0
               else if s.running != [] then
                 && c == Picked(s.running[0]) && r.running == s.running[1..] + [s.running[0]]
                 && r.down == s.down && r.accessCnt == if s.down == [] then 0 else s.accessCnt + 1
               else
                 c == Refused && r.running == s.running && r.down == s.down && r.accessCnt == s.accessCnt + 1
  {
  }

  /** The queue without the element at its only position. */
  function Removed<T(==)>(s: seq<T>, x: T): seq<T>
    requires x in s
  {
    s[..IndexOf(s, x)] + s[IndexOf(s, x) + 1..]
  }

  lemma {:induction false} WithoutIsRemoved<T>(s: seq<T>, x: T)
    requires NoDuplicates(s) && x in s
    ensures Without(s, x) == Removed(s, x)
  {
    assert s == [s[0]] + s[1..];
    if s[0] == x {
      WithoutAbsent(s[1..], x);
    } else {
      WithoutIsRemoved(s[1..], x);
    }
  }

  /** A report changes its host alone. The host keeps its place if it keeps its flag,
      and moves to the back of the other queue if not; nobody else moves. */
  lemma ReportInFields(cfg: Config, now: int, s: Lb, addr: Addr, op: HostOp)
    requires Inv(cfg, s)
    ensures var r, k := LbStep(cfg, now, s, Report(addr, op)), addr.Key();
            if k !in s.hosts then r == s
            else
              && Healthy(cfg, s.hosts[k])
              && var h := HostStep(cfg, now, s.hosts[k], op);
              && r.hosts == s.hosts[k := h]
              && r.accessCnt == s.accessCnt && r.effectData == s.effectData && r.lstRptTime == s.lstRptTime
              && r.status == s.status && r.version == s.version
              && (h.overload == s.hosts[k].overload ==> r.running == s.running && r.down == s.down)
              && (h.overload && !s.hosts[k].overload ==>
                    k in s.running && r.running == Removed(s.running, k) && r.down == s.down + [k])
              && (!h.overload && s.hosts[k].overload ==>
                    k in s.down && r.down == Removed(s.down, k) && r.running == s.running + [k])
  {
    hide HostStep, Healthy, Pack;
    var k := addr.Key();
    if k in s.running { WithoutIsRemoved(s.running, k); }
    if k in s.down { WithoutIsRemoved(s.down, k); }
  }

  /** A report on a host that has waited long enough puts it behind all running hosts. */
  lemma WaitEndsInBalancer(cfg: Config, now: int, s: Lb, addr: Addr, op: HostOp)
    requires Inv(cfg, s) && addr.Key() in s.down
    requires addr.Key() in s.hosts && now - s.hosts[addr.Key()].overloadTs >= cfg.ovldWaitLim
    ensures var r := LbStep(cfg, now, s, Report(addr, op));
            && r.running == s.running + [addr.Key()] && addr.Key() !in r.down
            && addr.Key() in r.hosts && !r.hosts[addr.Key()].overload && r.hosts[addr.Key()].windowTs == now
  {
    ReportInFields(cfg, now, s, addr, op);
    WaitEndsOverload(cfg, now, s.hosts[addr.Key()], op);
    hide HostStep, Pack, Healthy;
  }

  /** An update starts the reporter's period with the first hosts, and leaves the
      counter of requests alone. */
  lemma RefreshWritesTimes(cfg: Config, now: int, s: Lb, response: seq<Addr>)
    requires Inv(cfg, s) && response != []
    ensures var r := LbStep(cfg, now, s, Refresh(response));
            && r.lstRptTime == (if s.hosts == map[] then now else s.lstRptTime)
            && r.effectData == now && r.status == IsNew && r.accessCnt == s.accessCnt
  {
    hide Keep, FirstAppearances, HostAt, KeySet;
  }

  /** The other operations write one field each. */
  lemma ScalarsInFields(cfg: Config, now: int, s: Lb)
    requires Inv(cfg, s)
    ensures LbStep(cfg, now, s, Pull) == s.(status := IsPulling)
    ensures LbStep(cfg, now, s, ClearPulling) == s.(status := IsNew)
    ensures LbStep(cfg, now, s, TellReporter)
         == if s.hosts != map[] && now - s.lstRptTime >= cfg.reportTimo then s.(lstRptTime := now) else s
  {
  }
}
