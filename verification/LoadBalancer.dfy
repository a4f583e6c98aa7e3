/** The load balancer of one module as a value: its hosts, the two queues, the
    probe counter, and one function per operation.

    Queues hold the keys of the hosts. `LbStep` performs one operation on a
    balancer that satisfies `Inv`, and shows that the result satisfies it too. */
module LoadBalancer {
  import opened Wrappers
  import opened Words
  import opened Sequences
  import opened Hosts

  datatype Status = IsPulling | IsNew

  /** `version` is uninitialised until the first route arrives, hence an Option. */
  datatype Lb = Lb(
    hosts: map<Uint64, Host>, running: seq<Uint64>, down: seq<Uint64>, accessCnt: nat,
    effectData: int, lstRptTime: int, status: Status, version: Option<int>)

  const NEW_LB := Lb(map[], [], [], 0, 0, 0, IsPulling, None)

  // ---------- The invariant ----------

  /** The queues partition the hosts by their overload flags. */
  predicate Wired(s: Lb) {
    && NoDuplicates(s.running) && NoDuplicates(s.down)
    && (forall k :: k in s.running ==> k in s.hosts)
    && (forall k :: k in s.down ==> k in s.hosts)
    && (forall k :: k in s.hosts ==> s.hosts[k].Key() == k)
    && (forall k :: k in s.hosts ==> (k in s.down <==> s.hosts[k].overload))
    && (forall k :: k in s.hosts ==> (k in s.running <==> !s.hosts[k].overload))
  }

  predicate AllHealthy(cfg: Config, s: Lb) {
    forall k :: k in s.hosts ==> Healthy(cfg, s.hosts[k])
  }

  predicate Inv(cfg: Config, s: Lb) {
    && Wired(s)
    && AllHealthy(cfg, s)
    && s.accessCnt <= cfg.probeNum
    && (s.hosts != map[] ==> s.version.Some?)
  }

  // ---------- Choosing a host ----------

  datatype Choice = Refused | Picked(key: Uint64)

  /** It is an overloaded host's turn to be tried. */
  predicate Probing(cfg: Config, s: Lb) {
    s.down != [] && s.accessCnt >= cfg.probeNum
  }

  function Choose(cfg: Config, s: Lb): Choice {
    if Probing(cfg, s) then Picked(s.down[0])
    else if s.running != [] then Picked(s.running[0])
    else Refused
  }

  /** The chosen host goes to the back of its queue; the counter counts the calls
      between two probes while some host is overloaded. */
  function AfterChoice(cfg: Config, s: Lb): Lb {
    if Probing(cfg, s) then s.(down := Rotated(s.down), accessCnt := 0)
    else if s.running != [] then
      s.(running := Rotated(s.running), accessCnt := if s.down == [] then 0 else s.accessCnt + 1)
    else s.(accessCnt := s.accessCnt + 1)
  }

  // ---------- Reports ----------

  /** Host k becomes h; if its flag changed, it moves to the back of the other queue. */
  function Put(s: Lb, k: Uint64, h: Host): Lb
    requires k in s.hosts
  {
    var s' := s.(hosts := s.hosts[k := h]);
    if h.overload == s.hosts[k].overload then s'
    else if h.overload then s'.(running := Without(s.running, k), down := s.down + [k])
    else s'.(running := s.running + [k], down := Without(s.down, k))
  }

  function Reported(cfg: Config, now: int, s: Lb, k: Uint64, op: HostOp): Lb
    requires AllHealthy(cfg, s)
  {
    if k in s.hosts then Put(s, k, HostStep(cfg, now, s.hosts[k], op)) else s
  }

  // ---------- Route updates ----------

  function Keys(response: seq<Addr>): (r: seq<Uint64>)
    ensures |r| == |response|
    ensures forall i :: 0 <= i < |r| ==> r[i] == response[i].Key()
  {
    if response == [] then [] else Keys(response[..|response| - 1]) + [response[|response| - 1].Key()]
  }

  function KeySet(response: seq<Addr>): set<Uint64> {
    set k | k in Keys(response)
  }

  /** A host built from an address; `HI` stores the ip as uint32_t. */
  function HostAt(cfg: Config, now: int, key: Uint64): Host {
    NewHost(cfg, now, PackedHigh(key), Low(key))
  }

  /** Reconciling the balancer with the hosts of a non-empty response. */
  function Refreshed(cfg: Config, now: int, s: Lb, response: seq<Addr>): Lb {
    var remote := KeySet(response);
    Lb(
      map k | k in remote :: if k in s.hosts then s.hosts[k] else HostAt(cfg, now, k),
      Keep(s.running, remote) + FirstAppearances(s.hosts.Keys, Keys(response)),
      Keep(s.down, remote),
      s.accessCnt,
      now,
      if s.hosts == map[] then now else s.lstRptTime,
      IsNew,
      if remote == s.hosts.Keys then s.version else Some(now))
  }

  /** The same reconciliation step by step, as the code performs it: newcomers are
      added one by one, then the hosts that are gone are removed one by one. */
  function WithHost(cfg: Config, now: int, s: Lb, key: Uint64): Lb {
    if key in s.hosts then s
    else s.(hosts := s.hosts[key := HostAt(cfg, now, key)], running := s.running + [key])
  }

  function WithHosts(cfg: Config, now: int, s: Lb, response: seq<Addr>): Lb {
    if response == [] then s
    else WithHost(cfg, now, WithHosts(cfg, now, s, response[..|response| - 1]), response[|response| - 1].Key())
  }

  function WithoutHost(s: Lb, key: Uint64): Lb {
    s.(hosts := s.hosts - {key}, running := Without(s.running, key), down := Without(s.down, key))
  }

  function Restricted(s: Lb, keep: set<Uint64>): Lb {
    s.(hosts := map k | k in s.hosts && k in keep :: s.hosts[k],
       running := Keep(s.running, keep), down := Keep(s.down, keep))
  }

  /** The times, the status and the version at the end of a reconciliation. */
  function Stamped(now: int, s: Lb, first: bool, updated: bool): Lb {
    s.(effectData := now, status := IsNew,
       lstRptTime := if first then now else s.lstRptTime,
       version := if updated then Some(now) else s.version)
  }

  // ---------- All operations ----------

  datatype LbOp =
    | Select
    | Report(addr: Addr, op: HostOp)
    | Refresh(response: seq<Addr>)
    | Pull
    | ClearPulling
    | TellReporter

  /** Due to report to the reporter: there are hosts and the period has passed. */
  predicate ReporterDue(cfg: Config, now: int, s: Lb) {
    s.hosts != map[] && now - s.lstRptTime >= cfg.reportTimo
  }

  /** One operation. The callers never select from an empty balancer and never
      reconcile with an empty response; both are left out here as no-ops. */
  function LbStep(cfg: Config, now: int, s: Lb, op: LbOp): (r: Lb)
    requires Inv(cfg, s)
    ensures Inv(cfg, r)
  {
    match op
    case Select =>
      if s.hosts == map[] then s
      else
        AfterChoiceKeepsInv(cfg, s);
        AfterChoice(cfg, s)
    case Report(addr, hop) =>
      ReportedKeepsInv(cfg, now, s, addr.Key(), hop);
      Reported(cfg, now, s, addr.Key(), hop)
    case Refresh(response) =>
      if response == [] then s
      else
        RefreshedKeepsInv(cfg, now, s, response);
        Refreshed(cfg, now, s, response)
    case Pull => s.(status := IsPulling)
    case ClearPulling => s.(status := IsNew)
    case TellReporter => if ReporterDue(cfg, now, s) then s.(lstRptTime := now) else s
  }

  datatype TimedOp = TimedOp(now: int, op: LbOp)

  function LbRun(cfg: Config, s: Lb, run: seq<TimedOp>): (r: Lb)
    requires Inv(cfg, s)
    ensures Inv(cfg, r)
  {
    if run == [] then s
    else
      var last := run[|run| - 1];
      LbStep(cfg, last.now, LbRun(cfg, s, run[..|run| - 1]), last.op)
  }

  // ---------- Each operation keeps the invariant ----------

  lemma AfterChoiceKeepsInv(cfg: Config, s: Lb)
    requires Inv(cfg, s) && s.hosts != map[]
    ensures Inv(cfg, AfterChoice(cfg, s))
  {
    if Probing(cfg, s) { RotatedIsPermutation(s.down); }
    else if s.running != [] { RotatedIsPermutation(s.running); }
  }

  lemma PutKeepsWired(s: Lb, k: Uint64, h: Host)
    requires Wired(s) && k in s.hosts && h.Key() == k
    ensures Wired(Put(s, k, h))
  {
  }

  /** Two changes of one host amount to the second, unless its flag goes back and forth. */
  lemma PutTwice(s: Lb, k: Uint64, t: Host, u: Host)
    requires k in s.hosts
    requires t.overload == s.hosts[k].overload || u.overload == t.overload
    ensures Put(Put(s, k, t), k, u) == Put(s, k, u)
  {
    assert s.hosts[k := t][k := u] == s.hosts[k := u];
  }

  lemma ReportedKeepsInv(cfg: Config, now: int, s: Lb, k: Uint64, op: HostOp)
    requires Inv(cfg, s)
    ensures Inv(cfg, Reported(cfg, now, s, k, op))
  {
    if k in s.hosts {
      StepKeepsHealth(cfg, now, s.hosts[k], op);
      PutKeepsWired(s, k, HostStep(cfg, now, s.hosts[k], op));
    }
  }

  lemma RefreshedHosts(cfg: Config, now: int, s: Lb, response: seq<Addr>, k: Uint64)
    requires Inv(cfg, s) && k in KeySet(response)
    ensures var h := Refreshed(cfg, now, s, response).hosts[k];
            h.Key() == k && Healthy(cfg, h) && (k !in s.hosts ==> !h.overload)
  {
    PackOfPackedHigh(k);
  }

  lemma RefreshedRunning(cfg: Config, s: Lb, response: seq<Addr>)
    requires Inv(cfg, s)
    ensures var queue := Keep(s.running, KeySet(response)) + FirstAppearances(s.hosts.Keys, Keys(response));
            && NoDuplicates(queue)
            && (forall k :: k in queue <==> k in KeySet(response) && (k in s.hosts ==> !s.hosts[k].overload))
  {
    ConcatWithoutDuplicates(Keep(s.running, KeySet(response)), FirstAppearances(s.hosts.Keys, Keys(response)));
  }

  lemma RefreshedKeepsInv(cfg: Config, now: int, s: Lb, response: seq<Addr>)
    requires Inv(cfg, s)
    ensures Inv(cfg, Refreshed(cfg, now, s, response))
  {
    RefreshedRunning(cfg, s, response);
    var r := Refreshed(cfg, now, s, response);
    forall k | k in r.hosts
      ensures r.hosts[k].Key() == k && Healthy(cfg, r.hosts[k])
      ensures k !in s.hosts ==> !r.hosts[k].overload
    {
      RefreshedHosts(cfg, now, s, response, k);
    }
  }

  // ---------- The steps of a reconciliation ----------

  lemma KeysExtended(response: seq<Addr>, i: nat)
    requires i < |response|
    ensures Keys(response[..i + 1]) == Keys(response[..i]) + [response[i].Key()]
    ensures KeySet(response[..i + 1]) == KeySet(response[..i]) + {response[i].Key()}
  {
    assert response[..i + 1][..i] == response[..i];
  }

  lemma WithHostKeepsWired(cfg: Config, now: int, s: Lb, key: Uint64)
    requires Wired(s)
    ensures Wired(WithHost(cfg, now, s, key))
  {
    PackOfPackedHigh(key);
  }

  lemma {:induction false} WithHostsKeepsWired(cfg: Config, now: int, s: Lb, response: seq<Addr>)
    requires Wired(s)
    ensures Wired(WithHosts(cfg, now, s, response))
  {
    if response != [] {
      var n := |response| - 1;
      WithHostsKeepsWired(cfg, now, s, response[..n]);
      WithHostKeepsWired(cfg, now, WithHosts(cfg, now, s, response[..n]), response[n].Key());
    }
  }

  lemma NothingAdded(cfg: Config, now: int, s: Lb, response: seq<Addr>)
    ensures WithHosts(cfg, now, s, response[..0]) == s && KeySet(response[..0]) == {}
  {
  }

  lemma WithHostsExtended(cfg: Config, now: int, s: Lb, response: seq<Addr>, i: nat)
    requires i < |response|
    ensures WithHosts(cfg, now, s, response[..i + 1])
         == WithHost(cfg, now, WithHosts(cfg, now, s, response[..i]), response[i].Key())
  {
    hide WithHost;
    assert response[..i + 1][..i] == response[..i];
  }

  lemma {:induction false} WithHostsHosts(cfg: Config, now: int, s: Lb, response: seq<Addr>)
    ensures var r := WithHosts(cfg, now, s, response);
            && r.hosts.Keys == s.hosts.Keys + KeySet(response)
            && (forall k :: k in r.hosts ==> r.hosts[k] == if k in s.hosts then s.hosts[k] else HostAt(cfg, now, k))
  {
    if response != [] {
      var n := |response| - 1;
      WithHostsHosts(cfg, now, s, response[..n]);
      KeysExtended(response, n);
      assert response[..n + 1] == response;
    }
  }

  lemma {:induction false} WithHostsRunning(cfg: Config, now: int, s: Lb, response: seq<Addr>)
    ensures var r := WithHosts(cfg, now, s, response);
            r == s.(hosts := r.hosts, running := s.running + FirstAppearances(s.hosts.Keys, Keys(response)))
  {
    if response != [] {
      hide KeySet, HostAt, FirstAppearances, Keys;
      var n := |response| - 1;
      WithHostsRunning(cfg, now, s, response[..n]);
      WithHostsKeys(cfg, now, s, response[..n]);
      KeysExtended(response, n);
      assert response[..n + 1] == response;
      FirstAppearancesStep(s.hosts.Keys, Keys(response[..n]), response[n].Key());
    }
  }

  lemma WithHostsKeys(cfg: Config, now: int, s: Lb, response: seq<Addr>)
    ensures WithHosts(cfg, now, s, response).hosts.Keys == s.hosts.Keys + KeySet(response)
  {
    hide *;
    WithHostsHosts(cfg, now, s, response);
  }

  lemma WithoutHostOfRestricted(s: Lb, keep: set<Uint64>, key: Uint64)
    ensures WithoutHost(Restricted(s, keep), key) == Restricted(s, keep - {key})
  {
    WithoutIsKeep(s.running, keep, key);
    WithoutIsKeep(s.down, keep, key);
  }

  lemma RestrictedKeepsWired(s: Lb, keep: set<Uint64>)
    requires Wired(s)
    ensures Wired(Restricted(s, keep))
  {
  }

  lemma RestrictedToAll(s: Lb, keep: set<Uint64>)
    requires Wired(s) && s.hosts.Keys <= keep
    ensures Restricted(s, keep) == s
  {
    KeepAll(s.running, keep);
    KeepAll(s.down, keep);
  }

  lemma RemovalStep(s: Lb, remote: set<Uint64>, todel: set<Uint64>, key: Uint64)
    requires Wired(s) && todel <= s.hosts.Keys && todel !! remote && key in todel
    ensures Wired(Restricted(s, remote + todel)) && key in Restricted(s, remote + todel).hosts
    ensures WithoutHost(Restricted(s, remote + todel), key) == Restricted(s, remote + (todel - {key}))
  {
    RestrictedKeepsWired(s, remote + todel);
    WithoutHostOfRestricted(s, remote + todel, key);
    assert remote + todel - {key} == remote + (todel - {key});
  }

  lemma RestrictedQueues(cfg: Config, now: int, s: Lb, response: seq<Addr>)
    ensures var r := Restricted(WithHosts(cfg, now, s, response), KeySet(response));
            && r.running == Keep(s.running, KeySet(response)) + FirstAppearances(s.hosts.Keys, Keys(response))
            && r.down == Keep(s.down, KeySet(response))
            && r.accessCnt == s.accessCnt && r.lstRptTime == s.lstRptTime && r.version == s.version
  {
    var keep, newcomers := KeySet(response), FirstAppearances(s.hosts.Keys, Keys(response));
    WithHostsRunning(cfg, now, s, response);
    KeepConcat(s.running, newcomers, keep);
    KeepAll(newcomers, keep);
  }

  /** Adding all newcomers and keeping the response's keys is the reconciliation. */
  lemma RefreshedInSteps(cfg: Config, now: int, s: Lb, response: seq<Addr>)
    ensures var r := Restricted(WithHosts(cfg, now, s, response), KeySet(response));
            Refreshed(cfg, now, s, response)
            == Stamped(now, r, s.hosts == map[], KeySet(response) != s.hosts.Keys)
  {
    hide KeySet, HostAt, FirstAppearances, Keys, Keep, WithHosts;
    RestrictedQueues(cfg, now, s, response);
    WithHostsHosts(cfg, now, s, response);
    var r, f := Restricted(WithHosts(cfg, now, s, response), KeySet(response)), Refreshed(cfg, now, s, response);
    assert r.hosts == f.hosts;
  }

  /** The invariant does not look at the times and the status. */
  lemma ScalarsKeepInv(cfg: Config, s: Lb, t: Lb)
    requires Inv(cfg, s)
    requires t.hosts == s.hosts && t.running == s.running && t.down == s.down
    requires t.accessCnt == s.accessCnt && t.version == s.version
    ensures Inv(cfg, t)
  {
  }

  // ---------- Consequences ----------

  /** The two queues list every host exactly once, overloaded ones in the second;
      so a queue's front is only taken when there is one. */
  lemma QueuesListEveryHostOnce(cfg: Config, s: Lb)
    requires Inv(cfg, s)
    ensures NoDuplicates(s.running + s.down)
    ensures forall k :: k in s.running + s.down <==> k in s.hosts
    ensures s.hosts != map[] ==> s.running != [] || s.down != []
  {
    ConcatWithoutDuplicates(s.running, s.down);
    if s.hosts != map[] {
      var k :| k in s.hosts;
      assert k in s.running || k in s.down;
    }
  }

  /** A report, whatever it says, leaves its host fresh: idle inside its window, or
      overloaded for less than the waiting limit. */
  lemma ReportLeavesHostFresh(cfg: Config, now: int, s: Lb, addr: Addr, op: HostOp)
    requires Inv(cfg, s) && addr.Key() in s.hosts
    ensures var r, k := LbStep(cfg, now, s, Report(addr, op)), addr.Key();
            && k in r.hosts
            && (k in r.running ==> now - r.hosts[k].windowTs < cfg.clearTimo)
            && (k in r.down ==> now - r.hosts[k].overloadTs < cfg.ovldWaitLim)
            && (k in r.running || k in r.down)
  {
    hide HostStep, Put;
    var r, k := LbStep(cfg, now, s, Report(addr, op)), addr.Key();
    StepIsRecent(cfg, now, s.hosts[k], op);
    PutChangesHost(s, k, HostStep(cfg, now, s.hosts[k], op));
  }

  lemma PutChangesHost(s: Lb, k: Uint64, h: Host)
    requires k in s.hosts
    ensures k in Put(s, k, h).hosts && Put(s, k, h).hosts[k] == h
  {
  }

  lemma KeySetOf(response: seq<Addr>, i: nat)
    requires i < |response|
    ensures response[i].Key() in KeySet(response)
  {
    assert Keys(response)[i] in Keys(response);
  }

  /** Reconciliation, the hosts: exactly those of the response; survivors keep all
      their counters, newcomers start idle with the initial credit. */
  lemma RefreshReconcilesHosts(cfg: Config, now: int, s: Lb, response: seq<Addr>, i: nat)
    requires Inv(cfg, s) && i < |response|
    ensures var r := LbStep(cfg, now, s, Refresh(response));
            var a := response[i];
            && r.hosts.Keys == KeySet(response) && a.Key() in r.hosts
            && r.hosts[a.Key()] == if a.Key() in s.hosts then s.hosts[a.Key()]
                                   else NewHost(cfg, now, ToUint32(a.ip), a.port)
  {
    KeySetOf(response, i);
    PackedHighOfPack(response[i].ip, response[i].port);
    PackHalves(response[i].ip, response[i].port);
  }

  /** Reconciliation, the version: written exactly when the key set changes. */
  lemma RefreshWritesVersion(cfg: Config, now: int, s: Lb, response: seq<Addr>)
    requires Inv(cfg, s) && response != []
    ensures var r := LbStep(cfg, now, s, Refresh(response));
            && (r.hosts.Keys == s.hosts.Keys ==> r.version == s.version)
            && (r.hosts.Keys != s.hosts.Keys ==> r.version == Some(now))
            && r.hosts != map[] && r.effectData == now && r.status == IsNew
  {
    hide Keep, FirstAppearances, HostAt;
    KeySetOf(response, 0);
  }

  /** Reconciliation, the queues: in each queue the survivors keep their order;
      newcomers stand behind every survivor, in the order of their first appearance. */
  lemma RefreshKeepsOrder(cfg: Config, now: int, s: Lb, response: seq<Addr>, x: Uint64, y: Uint64)
    requires Inv(cfg, s) && response != []
    ensures var r := LbStep(cfg, now, s, Refresh(response));
            && (x in s.down && y in s.down && x in r.hosts && y in r.hosts ==>
                  x in r.down && y in r.down
                  && (IndexOf(r.down, x) < IndexOf(r.down, y) <==> IndexOf(s.down, x) < IndexOf(s.down, y)))
            && (x in s.running && y in s.running && x in r.hosts && y in r.hosts ==>
                  x in r.running && y in r.running
                  && (IndexOf(r.running, x) < IndexOf(r.running, y)
                      <==> IndexOf(s.running, x) < IndexOf(s.running, y)))
            && (x in s.running && x in r.hosts && y !in s.hosts && y in r.hosts ==>
                  x in r.running && y in r.running && IndexOf(r.running, x) < IndexOf(r.running, y))
            && (x !in s.hosts && y !in s.hosts && x in r.hosts && y in r.hosts ==>
                  x in r.running && y in r.running
                  && (IndexOf(r.running, x) < IndexOf(r.running, y)
                      <==> IndexOf(Keys(response), x) < IndexOf(Keys(response), y)))
  {
    var r := LbStep(cfg, now, s, Refresh(response));
    var keep := KeySet(response);
    if x in r.hosts && y in r.hosts {
      if x in s.down && y in s.down { KeepPreservesOrder(s.down, x, y, keep); }
      if x in s.running && y in s.running { KeepPreservesOrder(s.running, x, y, keep); }
      RunningPosition(cfg, s, response, x);
      RunningPosition(cfg, s, response, y);
      if x !in s.hosts && y !in s.hosts {
        FirstAppearancesInOrder(s.hosts.Keys, Keys(response), x, y);
      }
    }
  }

  /** Where a host stands in the reconciled running queue. */
  lemma RunningPosition(cfg: Config, s: Lb, response: seq<Addr>, x: Uint64)
    requires Inv(cfg, s) && x in KeySet(response)
    ensures var survivors, newcomers := Keep(s.running, KeySet(response)),
                                        FirstAppearances(s.hosts.Keys, Keys(response));
            x in s.running || x !in s.hosts ==>
              && x in survivors + newcomers
              && IndexOf(survivors + newcomers, x)
                 == if x in s.running then IndexOf(survivors, x) else |survivors| + IndexOf(newcomers, x)
  {
    var survivors, newcomers := Keep(s.running, KeySet(response)), FirstAppearances(s.hosts.Keys, Keys(response));
    if x in s.running { IndexOfAppended(survivors, newcomers, x); }
    if x !in s.hosts { IndexOfInTail(survivors, newcomers, x); }
  }
}
