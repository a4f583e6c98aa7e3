/** When equal versions mean equal hosts: exactly the schedules of the agent that
    let no client, however its requests are interleaved, keep other hosts under
    the agent's version. */
module Stamps {
  import opened Wrappers
  import opened Words
  import opened Hosts
  import opened LoadBalancer
  import opened Agent
  import opened RouteTable
  import opened ClientCache
  import opened Replica

  predicate AgentOnly(run: seq<SysEvent>) {
    forall i :: 0 <= i < |run| ==> run[i].AtAgent?
  }

  /** What happens at the agent alone. */
  function AgentPart(run: seq<SysEvent>): (r: seq<SysEvent>)
    ensures AgentOnly(r)
  {
    if run == [] then []
    else AgentPart(run[..|run| - 1]) + if run[|run| - 1].AtAgent? then [run[|run| - 1]] else []
  }

  /** The client's request reaches the agent. */
  predicate Reaches(s: System, e: SysEvent) {
    e.Ask? && NeedsFetch(s.client, e.now) && e.delivery != RequestLost
  }

  predicate FindsEntry(cfg: Config, run: seq<SysEvent>, i: nat)
    requires i < |run|
  {
    var s := SysRun(cfg, run[..i]);
    Reaches(s, run[i]) ==> s.agent.Some?
  }

  /** A client's activity put between the events of a schedule, up to some point of
      it. A request that makes the module's entry counts as part of the schedule. */
  ghost predicate Watches(cfg: Config, sched: seq<SysEvent>, run: seq<SysEvent>) {
    && PossibleRun(cfg, run) && AgentPart(run) <= sched
    && forall i :: 0 <= i < |run| ==> FindsEntry(cfg, run, i)
  }

  // ---------- A watching client does not change routes ----------

  /** The same hosts under the same version. */
  predicate SameRoute(m: Mod, n: Mod) {
    && m.Some? == n.Some?
    && (m.Some? ==> m.value.hosts.Keys == n.value.hosts.Keys && m.value.version == n.value.version)
  }

  lemma SameRouteStep(cfg: Config, now: int, m: Mod, n: Mod, op: ModOp)
    requires ModInv(cfg, m) && ModInv(cfg, n) && SameRoute(m, n)
    ensures SameRoute(ModStep(cfg, now, m, op), ModStep(cfg, now, n, op))
  {
    if m.Some? && op != RouteUpdate([]) {
      StepOnView(cfg, now, m.value, op);
      StepOnView(cfg, now, n.value, op);
      RouteOfView(m.value, n.value);
      hide ModStep, Inv, KeySet;
      RouteOfView(ModStep(cfg, now, m, op).value, ModStep(cfg, now, n, op).value);
    }
  }

  lemma RouteOfView(s: Lb, t: Lb)
    ensures SameRoute(Some(s), Some(t)) <==> ViewOf(s).keys == ViewOf(t).keys && ViewOf(s).version == ViewOf(t).version
  {
  }

  lemma AskKeepsRoute(cfg: Config, now: int, s: Lb, have: int)
    requires Inv(cfg, s)
    ensures SameRoute(ModStep(cfg, now, Some(s), CacheRouteReq(have)), Some(s))
  {
    hide ModStep, Inv;
    AgentAnswers(cfg, now, s, have);
  }

  lemma WatchesPrefix(cfg: Config, sched: seq<SysEvent>, run: seq<SysEvent>, i: nat)
    requires Watches(cfg, sched, run) && i <= |run|
    ensures Watches(cfg, sched, run[..i])
    ensures AgentPart(run[..i]) <= AgentPart(run)
  {
    hide SysRun, PossibleRun, Reaches;
    AgentPartPrefix(run, i);
    PossibleTake(cfg, run, i);
    forall k | 0 <= k < i ensures FindsEntry(cfg, run[..i], k) {
      assert run[..i][..k] == run[..k];
      assert FindsEntry(cfg, run, k);
    }
  }

  lemma {:induction false} AgentPartPrefix(run: seq<SysEvent>, i: nat)
    requires i <= |run|
    ensures AgentPart(run[..i]) <= AgentPart(run)
    decreases |run|
  {
    if i == |run| {
      assert run[..i] == run;
    } else {
      var earlier := run[..|run| - 1];
      AgentPartPrefix(earlier, i);
      assert earlier[..i] == run[..i];
    }
  }

  /** The agent has the route its own events gave it. */
  lemma {:induction false} RouteOfSchedule(cfg: Config, sched: seq<SysEvent>, run: seq<SysEvent>)
    requires Watches(cfg, sched, run)
    ensures SameRoute(SysRun(cfg, run).agent, SysRun(cfg, AgentPart(run)).agent)
  {
    if run != [] {
      var earlier, last := run[..|run| - 1], run[|run| - 1];
      WatchesPrefix(cfg, sched, run, |run| - 1);
      RouteOfSchedule(cfg, sched, earlier);
      var s := SysRun(cfg, earlier);
      hide ModStep, ClientStep, SameRoute, Watches, PossibleRun, Aborts;
      match last
      case AtAgent(now, op) =>
        RunExtended(cfg, AgentPart(earlier), last);
        SameRouteStep(cfg, now, s.agent, SysRun(cfg, AgentPart(earlier)).agent, op);
      case Ask(now, _, _) =>
        assert AgentPart(run) == AgentPart(earlier);
        if Reaches(s, last) {
          ReachedEntry(cfg, sched, run);
          AskKeepsRoute(cfg, now, s.agent.value, VersionOf(s.client));
          SameRouteTrans(SysRun(cfg, run).agent, s.agent, SysRun(cfg, AgentPart(run)).agent);
        }
      case AtClient(_) =>
        assert AgentPart(run) == AgentPart(earlier);
    }
  }

  lemma ReachedEntry(cfg: Config, sched: seq<SysEvent>, run: seq<SysEvent>)
    requires run != [] && Watches(cfg, sched, run) && Reaches(SysRun(cfg, run[..|run| - 1]), run[|run| - 1])
    ensures SysRun(cfg, run[..|run| - 1]).agent.Some?
  {
    hide SysRun, Reaches, PossibleRun;
    assert FindsEntry(cfg, run, |run| - 1);
  }

  lemma SameRouteTrans(l: Mod, m: Mod, n: Mod)
    requires SameRoute(l, m) && SameRoute(m, n)
    ensures SameRoute(l, n)
  {
  }

  /** Every change of the hosts is one of the schedule. */
  lemma WritesInSchedule(cfg: Config, sched: seq<SysEvent>, run: seq<SysEvent>, i: nat)
    requires Watches(cfg, sched, run) && WritesVersion(cfg, run, i)
    ensures var n := |AgentPart(run[..i])|;
            WritesVersion(cfg, sched, n) && sched[n] == run[i]
  {
    var n := |AgentPart(run[..i])|;
    WatchesPrefix(cfg, sched, run, i);
    WatchesPrefix(cfg, sched, run, i + 1);
    RouteOfSchedule(cfg, sched, run[..i]);
    assert run[..i + 1][..i] == run[..i];
    assert AgentPart(run[..i + 1]) == AgentPart(run[..i]) + [run[i]];
    assert sched[..n] == AgentPart(run[..i]);
  }

  lemma StampsOfSchedule(cfg: Config, sched: seq<SysEvent>, run: seq<SysEvent>)
    requires Watches(cfg, sched, run) && StampsTellHosts(cfg, sched)
    ensures StampsTellHosts(cfg, run)
  {
    hide Watches, SysRun, KeySet;
    forall i, j | WritesVersion(cfg, run, i) && WritesVersion(cfg, run, j) && run[i].now == run[j].now
      ensures KeySet(run[i].op.hosts) == KeySet(run[j].op.hosts)
    {
      WritesInSchedule(cfg, sched, run, i);
      WritesInSchedule(cfg, sched, run, j);
    }
  }

  // ---------- A client that is misled ----------

  lemma {:induction false} NoClientYet(cfg: Config, run: seq<SysEvent>)
    requires AgentOnly(run)
    ensures SysRun(cfg, run).client == None && AgentPart(run) == run
  {
    if run != [] {
      hide ModStep;
      NoClientYet(cfg, run[..|run| - 1]);
      assert run[..|run| - 1] + [run[|run| - 1]] == run;
    }
  }

  /** The addresses of a balancer's hosts, one by one. */
  function ListingOf(s: Lb): (r: seq<Addr>)
    ensures |r| == |s.running + s.down|
    ensures forall i :: 0 <= i < |r| ==> r[i] == AddrOf((s.running + s.down)[i])
  {
    seq(|s.running + s.down|, i requires 0 <= i < |s.running + s.down| => AddrOf((s.running + s.down)[i]))
  }

  lemma ListingListsHosts(cfg: Config, s: Lb)
    requires Inv(cfg, s)
    ensures ListsHosts(ListingOf(s), s)
  {
    QueuesListEveryHostOnce(cfg, s);
    var queues, l := s.running + s.down, ListingOf(s);
    forall i | 0 <= i < |queues| ensures Keys(l)[i] == queues[i] { KeyOfAddrOf(queues[i]); }
    assert Keys(l) == queues;
  }

  /** The state right behind a change of the hosts. */
  lemma BehindWrite(cfg: Config, run: seq<SysEvent>, i: nat)
    requires PossibleRun(cfg, run) && WritesVersion(cfg, run, i)
    ensures var m := SysRun(cfg, run[..i + 1]).agent;
            && m.Some? && m.value.hosts.Keys == KeySet(run[i].op.hosts) && m.value.hosts != map[]
            && m.value.version == Some(run[i].now) && run[i].now >= 0
    ensures PossibleRun(cfg, run[..i + 1])
  {
    PossibleTake(cfg, run, i);
    PossibleTake(cfg, run, i + 1);
    hide WritesVersion;
    UpdateAt(cfg, run, i);
    UpdateStep(cfg, run[..i], run[i].now, run[i].op.hosts);
    assert run[..i + 1] == run[..i] + [AtAgent(run[i].now, RouteUpdate(run[i].op.hosts))];
  }

  lemma UpdateAt(cfg: Config, run: seq<SysEvent>, i: nat)
    requires PossibleRun(cfg, run) && WritesVersion(cfg, run, i)
    ensures i < |run| && run[i].AtAgent? && run[i].op.RouteUpdate? && run[i].op.hosts != [] && run[i].now >= 0
    ensures var m := SysRun(cfg, run[..i]).agent; m.Some? && m.value.hosts.Keys != KeySet(run[i].op.hosts)
  {
    hide SysRun;
    assert Possible(SysRun(cfg, run[..i]), run[i]);
  }

  lemma PossibleTake(cfg: Config, run: seq<SysEvent>, i: nat)
    requires PossibleRun(cfg, run) && i <= |run|
    ensures PossibleRun(cfg, run[..i])
  {
    hide SysRun, Possible;
    forall k | 0 <= k < i ensures run[..i][..k] == run[..k] {}
  }

  /** Events at the agent alone, its updates stamped by a clock. */
  predicate AgentHistory(run: seq<SysEvent>) {
    AgentOnly(run) && forall i :: 0 <= i < |run| && run[i].op.RouteUpdate? ==> run[i].now >= 0
  }

  lemma HistoryPart(cfg: Config, run: seq<SysEvent>, lo: nat, hi: nat)
    requires AgentOnly(run) && PossibleRun(cfg, run) && lo <= hi <= |run|
    ensures AgentHistory(run[lo..hi])
  {
    UpdatesAreStamped(cfg, run);
    hide PossibleRun;
  }

  lemma AgentEventAppended(cfg: Config, run: seq<SysEvent>, e: SysEvent)
    requires PossibleRun(cfg, run) && e.AtAgent? && (e.op.RouteUpdate? ==> e.now >= 0)
    ensures PossibleRun(cfg, run + [e])
    ensures SysRun(cfg, run + [e]).client == SysRun(cfg, run).client
    ensures AgentPart(run + [e]) == AgentPart(run) + [e]
  {
    PossibleExtended(cfg, run, e);
    RunExtended(cfg, run, e);
    hide ModStep, PossibleRun, SysRun;
    assert (run + [e])[..|run|] == run;
  }

  /** Further events at the agent leave the client alone. */
  lemma {:induction false} AgentEventsAppended(cfg: Config, run: seq<SysEvent>, more: seq<SysEvent>)
    requires PossibleRun(cfg, run) && AgentHistory(more)
    ensures PossibleRun(cfg, run + more)
    ensures SysRun(cfg, run + more).client == SysRun(cfg, run).client
    ensures AgentPart(run + more) == AgentPart(run) + more
  {
    hide SysRun, PossibleRun, AgentPart;
    if more == [] {
      assert run + more == run;
      assert AgentPart(run) + more == AgentPart(run);
    } else {
      var n := |more| - 1;
      var earlier, e := more[..n], more[n];
      assert run + more == run + earlier + [e] && more == earlier + [e];
      AgentEventsAppended(cfg, run, earlier);
      AgentEventAppended(cfg, run + earlier, e);
      assert AgentPart(run) + earlier + [e] == AgentPart(run) + more;
    }
  }

  /** A fetch at time t right behind event i, then the schedule goes on to event j. */
  function MisledRun(sched: seq<SysEvent>, i: nat, j: nat, t: int, l: seq<Addr>): seq<SysEvent>
    requires i < j < |sched|
  {
    (sched[..i + 1] + [Ask(t, Delivered, l)]) + sched[i + 1..j + 1]
  }

  lemma MisledFetch(cfg: Config, sched: seq<SysEvent>, i: nat, t: int) returns (l: seq<Addr>)
    requires AgentOnly(sched) && PossibleRun(cfg, sched)
    requires WritesVersion(cfg, sched, i) && sched[i].now == t
    ensures var run := sched[..i + 1] + [Ask(t, Delivered, l)];
            && PossibleRun(cfg, run) && SysRun(cfg, sched[..i + 1]).agent.Some?
            && AgentPart(run) == sched[..i + 1]
            && HasFetched(SysRun(cfg, run).client, t, KeySet(sched[i].op.hosts))
  {
    BehindWrite(cfg, sched, i);
    var earlier := sched[..i + 1];
    NoClientYet(cfg, earlier);
    hide SysRun, PossibleRun, WritesVersion, KeySet;
    var s := SysRun(cfg, earlier).agent.value;
    l := ListingOf(s);
    ListingListsHosts(cfg, s);
    FirstFetch(cfg, earlier, t, l);
    var run := earlier + [Ask(t, Delivered, l)];
    assert run[..|run| - 1] == earlier;
  }

  predicate HasFetched(c: Cached, version: int, hosts: set<Uint64>) {
    c.Some? && c.value.version == version && KeySet(c.value.nodeList) == hosts
  }

  lemma MisledInParts(sched: seq<SysEvent>, i: nat, j: nat, t: int, l: seq<Addr>)
    requires i < j < |sched|
    ensures MisledRun(sched, i, j, t, l) == (sched[..i + 1] + [Ask(t, Delivered, l)]) + sched[i + 1..j + 1]
  {
  }

  lemma MisledPart(sched: seq<SysEvent>, i: nat, j: nat)
    requires i < j < |sched|
    ensures sched[..i + 1] + sched[i + 1..j + 1] == sched[..j + 1]
  {
  }

  /** The only request in the run finds the entry that has just been changed. */
  lemma MisledFindsEntry(cfg: Config, sched: seq<SysEvent>, i: nat, j: nat, t: int, l: seq<Addr>)
    requires AgentOnly(sched) && i < j < |sched| && SysRun(cfg, sched[..i + 1]).agent.Some?
    requires PossibleRun(cfg, MisledRun(sched, i, j, t, l))
    requires AgentPart(MisledRun(sched, i, j, t, l)) == sched[..j + 1]
    ensures Watches(cfg, sched, MisledRun(sched, i, j, t, l))
  {
    hide SysRun, PossibleRun, AgentPart;
    var run := MisledRun(sched, i, j, t, l);
    forall k | 0 <= k < |run| ensures FindsEntry(cfg, run, k) {
      if k == i + 1 { assert run[..k] == sched[..i + 1]; } else { assert run[k].AtAgent?; }
    }
  }

  /** The run watches the schedule, and at its end the client still has what it fetched. */
  lemma MisledWatches(cfg: Config, sched: seq<SysEvent>, i: nat, j: nat, t: int) returns (l: seq<Addr>)
    requires AgentOnly(sched) && PossibleRun(cfg, sched) && i < j < |sched|
    requires WritesVersion(cfg, sched, i) && sched[i].now == t
    ensures var run := MisledRun(sched, i, j, t, l);
            && Watches(cfg, sched, run) && AgentPart(run) == sched[..j + 1]
            && HasFetched(SysRun(cfg, run).client, t, KeySet(sched[i].op.hosts))
  {
    hide *;
    l := MisledFetch(cfg, sched, i, t);
    HistoryPart(cfg, sched, i + 1, j + 1);
    MisledPart(sched, i, j);
    MisledInParts(sched, i, j, t, l);
    AgentEventsAppended(cfg, sched[..i + 1] + [Ask(t, Delivered, l)], sched[i + 1..j + 1]);
    MisledFindsEntry(cfg, sched, i, j, t, l);
  }

  lemma SameVersionOtherHosts(s: System, m: Mod, t: int, hosts: set<Uint64>)
    requires m.Some? && m.value.hosts != map[] && SameRoute(s.agent, m)
    requires m.value.version == Some(t) && HasFetched(s.client, t, hosts) && hosts != m.value.hosts.Keys
    ensures !Agrees(s)
  {
    assert s.agent.value.hosts.Keys == m.value.hosts.Keys;
  }

  /** Two changes with one stamp and different hosts mislead a client that fetches
      between them. */
  lemma Misled(cfg: Config, sched: seq<SysEvent>, i: nat, j: nat, t: int)
    requires AgentOnly(sched) && PossibleRun(cfg, sched) && i < j < |sched|
    requires WritesVersion(cfg, sched, i) && WritesVersion(cfg, sched, j) && sched[i].now == sched[j].now == t
    requires KeySet(sched[i].op.hosts) != KeySet(sched[j].op.hosts)
    ensures exists l :: Watches(cfg, sched, MisledRun(sched, i, j, t, l))
                        && !Agrees(SysRun(cfg, MisledRun(sched, i, j, t, l)))
  {
    BehindWrite(cfg, sched, j);
    hide SysRun, PossibleRun, KeySet, Watches, Agrees, SameRoute, AgentPart, MisledRun, AgentOnly, HasFetched;
    var l := MisledWatches(cfg, sched, i, j, t);
    RouteOfSchedule(cfg, sched, MisledRun(sched, i, j, t, l));
    SameVersionOtherHosts(SysRun(cfg, MisledRun(sched, i, j, t, l)), SysRun(cfg, sched[..j + 1]).agent,
                          t, KeySet(sched[i].op.hosts));
  }

  lemma UpdatesAreStamped(cfg: Config, run: seq<SysEvent>)
    requires PossibleRun(cfg, run)
    ensures forall i :: 0 <= i < |run| && run[i].AtAgent? && run[i].op.RouteUpdate? ==> run[i].now >= 0
  {
    hide SysRun;
    forall i | 0 <= i < |run| && run[i].AtAgent? && run[i].op.RouteUpdate? ensures run[i].now >= 0 {
      assert Possible(SysRun(cfg, run[..i]), run[i]);
    }
  }

  lemma MisledBySchedule(cfg: Config, sched: seq<SysEvent>)
    requires AgentOnly(sched) && PossibleRun(cfg, sched) && !StampsTellHosts(cfg, sched)
    ensures exists run :: Watches(cfg, sched, run) && !Agrees(SysRun(cfg, run))
  {
    hide SysRun, PossibleRun, Watches, Agrees, KeySet, AgentOnly;
    var i, j :| WritesVersion(cfg, sched, i) && WritesVersion(cfg, sched, j) && sched[i].now == sched[j].now
                && KeySet(sched[i].op.hosts) != KeySet(sched[j].op.hosts);
    hide WritesVersion, StampsTellHosts, MisledRun;
    var t := sched[i].now;
    if i < j { Misled(cfg, sched, i, j, t); } else { Misled(cfg, sched, j, i, t); }
  }

  lemma AgreesOnSchedule(cfg: Config, sched: seq<SysEvent>, run: seq<SysEvent>)
    requires Watches(cfg, sched, run) && StampsTellHosts(cfg, sched)
    ensures Agrees(SysRun(cfg, run))
  {
    StampsOfSchedule(cfg, sched, run);
    hide SysRun, StampsTellHosts, Agrees;
    SameVersionSameHosts(cfg, run);
  }

  /** The exact condition: for every schedule of the agent, every client that watches
      it has the agent's hosts whenever it has the agent's version, if and only if
      changes of the schedule with the same stamp brought the same hosts. */
  lemma StampsDecideAgreement(cfg: Config, sched: seq<SysEvent>)
    requires AgentOnly(sched) && PossibleRun(cfg, sched)
    ensures StampsTellHosts(cfg, sched)
       <==> forall run :: Watches(cfg, sched, run) ==> Agrees(SysRun(cfg, run))
  {
    hide *;
    if StampsTellHosts(cfg, sched) {
      forall run | Watches(cfg, sched, run) ensures Agrees(SysRun(cfg, run)) {
        AgreesOnSchedule(cfg, sched, run);
      }
    } else {
      MisledBySchedule(cfg, sched);
    }
  }
}
