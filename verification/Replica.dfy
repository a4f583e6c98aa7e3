/** A client's cached copy of a module against the agent's, over whole runs of
    both, with requests and replies that may be lost. */
module Replica {
  import opened Wrappers
  import opened Words
  import opened Sequences
  import opened Hosts
  import opened LoadBalancer
  import opened Agent
  import opened RouteTable
  import opened ClientCache

  datatype System = System(agent: Mod, client: Cached)

  datatype Delivery = RequestLost | ReplyLost | Delivered

  /** Something happens at the agent; or the client asks for a host, with a fate
      for the exchange this may need and an order in which the agent would list its
      hosts; or the client does something that needs no reply. */
  datatype SysEvent =
    | AtAgent(now: int, op: ModOp)
    | Ask(now: int, delivery: Delivery, listing: seq<Addr>)
    | AtClient(cop: ClientOp)

  predicate NeedsFetch(c: Cached, now: int) {
    c.None? || Expired(now, c.value)
  }

  /** The reply of the agent as the client reads it; a failed assertion is no reply. */
  function ReplyOf(m: Mod, have: int, listing: seq<Addr>): Fetch {
    if Aborts(m, CacheRouteReq(have)) then Failed
    else if m.None? || m.value.hosts == map[] then Fetched(-1, false, [])
    else if m.value.version.None? then Failed
    else Fetched(m.value.version.value, m.value.down != [],
                 if m.value.version.value == have then [] else listing)
  }

  /** That is what the agent's method answers, for some listing of its hosts. */
  lemma ReplyOfIsAnswer(m: Mod, have: int, r: CacheReply)
    requires AnswersCache(m, have, r) && r.CacheReplied?
    ensures ReplyOf(m, have, r.route) == Fetched(r.version, r.overload, r.route)
  {
  }

  function FetchOf(s: System, e: SysEvent): Fetch
    requires e.Ask?
  {
    if e.delivery == Delivered then ReplyOf(s.agent, VersionOf(s.client), e.listing) else Failed
  }

  /** The listing names every host of the agent once. */
  predicate Possible(s: System, e: SysEvent) {
    && (e.Ask? && s.agent.Some? ==> ListsHosts(e.listing, s.agent.value))
    && (e.AtClient? ==> !e.cop.GetCall?)
    && (e.AtAgent? && e.op.RouteUpdate? ==> e.now >= 0)
  }

  function SysStep(cfg: Config, s: System, e: SysEvent): (r: System)
    requires ModInv(cfg, s.agent)
    ensures ModInv(cfg, r.agent)
  {
    match e
    case AtAgent(now, op) => System(ModStep(cfg, now, s.agent, op), s.client)
    case Ask(now, delivery, _) =>
      System(if NeedsFetch(s.client, now) && delivery != RequestLost
             then ModStep(cfg, now, s.agent, CacheRouteReq(VersionOf(s.client))) else s.agent,
             ClientStep(s.client, GetCall(now, FetchOf(s, e))))
    case AtClient(cop) => System(s.agent, ClientStep(s.client, cop))
  }

  function SysRun(cfg: Config, run: seq<SysEvent>): (r: System)
    ensures ModInv(cfg, r.agent)
  {
    if run == [] then System(None, None)
    else SysStep(cfg, SysRun(cfg, run[..|run| - 1]), run[|run| - 1])
  }

  predicate PossibleRun(cfg: Config, run: seq<SysEvent>) {
    forall i :: 0 <= i < |run| ==> Possible(SysRun(cfg, run[..i]), run[i])
  }

  // ---------- Where versions come from ----------

  /** Event i is a route update that changes the module's set of hosts. */
  predicate WritesVersion(cfg: Config, run: seq<SysEvent>, i: int) {
    && 0 <= i < |run| && run[i].AtAgent? && run[i].op.RouteUpdate? && run[i].op.hosts != []
    && var m := SysRun(cfg, run[..i]).agent;
       m.Some? && KeySet(run[i].op.hosts) != m.value.hosts.Keys
  }

  /** A host set and a version that some update of the run wrote together. */
  ghost predicate Written(cfg: Config, run: seq<SysEvent>, keys: set<Uint64>, version: int) {
    exists i :: WritesVersion(cfg, run, i) && KeySet(run[i].op.hosts) == keys && run[i].now == version
  }

  ghost predicate Traced(cfg: Config, run: seq<SysEvent>) {
    var s := SysRun(cfg, run);
    && (s.agent.Some? && s.agent.value.hosts != map[] ==>
          && s.agent.value.version.Some?
          && Written(cfg, run, s.agent.value.hosts.Keys, s.agent.value.version.value))
    && (s.client.Some? ==>
          && NoDuplicates(Keys(s.client.value.nodeList))
          && Written(cfg, run, KeySet(s.client.value.nodeList), s.client.value.version))
    && CachedInv(s.client)
  }

  lemma WrittenExtended(cfg: Config, run: seq<SysEvent>, e: SysEvent, keys: set<Uint64>, version: int)
    requires Written(cfg, run, keys, version)
    ensures Written(cfg, run + [e], keys, version)
  {
    hide SysRun, KeySet;
    var i :| WritesVersion(cfg, run, i) && KeySet(run[i].op.hosts) == keys && run[i].now == version;
    assert (run + [e])[..i] == run[..i] && (run + [e])[i] == run[i];
    assert WritesVersion(cfg, run + [e], i);
  }

  lemma WrittenNow(cfg: Config, run: seq<SysEvent>, e: SysEvent)
    requires e.AtAgent? && e.op.RouteUpdate? && e.op.hosts != []
    requires var m := SysRun(cfg, run).agent; m.Some? && KeySet(e.op.hosts) != m.value.hosts.Keys
    ensures Written(cfg, run + [e], KeySet(e.op.hosts), e.now)
  {
    assert (run + [e])[..|run|] == run;
    assert WritesVersion(cfg, run + [e], |run|);
  }

  lemma WrittenVersionIsNotMissing(cfg: Config, run: seq<SysEvent>, keys: set<Uint64>, version: int)
    requires PossibleRun(cfg, run) && Written(cfg, run, keys, version)
    ensures version != -1 && keys != {}
  {
    var i :| WritesVersion(cfg, run, i) && KeySet(run[i].op.hosts) == keys && run[i].now == version;
    assert Possible(SysRun(cfg, run[..i]), run[i]);
    KeySetOf(run[i].op.hosts, 0);
  }

  // ---------- One step ----------

  lemma RunExtended(cfg: Config, run: seq<SysEvent>, e: SysEvent)
    ensures SysRun(cfg, run + [e]) == SysStep(cfg, SysRun(cfg, run), e)
  {
    assert (run + [e])[..|run|] == run;
  }

  /** After any operation on the agent, its hosts and version were written together. */
  lemma AgentStaysTraced(cfg: Config, run: seq<SysEvent>, e: SysEvent, now: int, op: ModOp)
    requires Traced(cfg, run) && (op.RouteUpdate? ==> e == AtAgent(now, op))
    ensures var r := ModStep(cfg, now, SysRun(cfg, run).agent, op);
            r.Some? && r.value.hosts != map[] ==>
              && r.value.version.Some?
              && Written(cfg, run + [e], r.value.hosts.Keys, r.value.version.value)
  {
    var m := SysRun(cfg, run).agent;
    if m.Some? && op != RouteUpdate([]) {
      StepOnView(cfg, now, m.value, op);
      var r := ModStep(cfg, now, m, op).value;
      assert r.hosts.Keys == ViewOf(r).keys && r.version == ViewOf(r).version;
      if op.RouteUpdate? && KeySet(op.hosts) != m.value.hosts.Keys {
        WrittenNow(cfg, run, e);
      } else if m.value.hosts != map[] {
        WrittenExtended(cfg, run, e, m.value.hosts.Keys, m.value.version.value);
      } else {
        assert m.value.hosts.Keys == {};
        assert r.hosts.Keys == {};
      }
    }
  }

  /** A reply always brings what the client's copy needs. */
  lemma RepliesAreUsable(cfg: Config, run: seq<SysEvent>, e: SysEvent)
    requires PossibleRun(cfg, run) && Traced(cfg, run) && e.Ask? && Possible(SysRun(cfg, run), e)
    ensures Usable(SysRun(cfg, run).client, FetchOf(SysRun(cfg, run), e))
  {
    var s := SysRun(cfg, run);
    var f := FetchOf(s, e);
    if f.Fetched? && f.version != -1 && (s.client.None? || f.version != s.client.value.version) {
      assert s.agent.Some? && s.agent.value.hosts != map[];
      var k :| k in s.agent.value.hosts;
      assert k in KeySet(e.listing);
    }
  }

  function ClientOpOf(s: System, e: SysEvent): ClientOp
    requires !e.AtAgent?
  {
    if e.Ask? then GetCall(e.now, FetchOf(s, e)) else e.cop
  }

  lemma UsableOp(cfg: Config, run: seq<SysEvent>, e: SysEvent)
    requires PossibleRun(cfg, run) && Traced(cfg, run) && !e.AtAgent? && Possible(SysRun(cfg, run), e)
    ensures var op := ClientOpOf(SysRun(cfg, run), e);
            op.GetCall? ==> Usable(SysRun(cfg, run).client, op.fetch)
  {
    if e.Ask? { RepliesAreUsable(cfg, run, e); }
  }

  /** After any operation of the client, its listing and version were written together. */
  lemma ClientStaysTraced(cfg: Config, run: seq<SysEvent>, e: SysEvent)
    requires PossibleRun(cfg, run) && Traced(cfg, run) && !e.AtAgent? && Possible(SysRun(cfg, run), e)
    ensures var r := ClientStep(SysRun(cfg, run).client, ClientOpOf(SysRun(cfg, run), e));
            && CachedInv(r)
            && (r.Some? ==>
                  && NoDuplicates(Keys(r.value.nodeList))
                  && Written(cfg, run + [e], KeySet(r.value.nodeList), r.value.version))
  {
    var s := SysRun(cfg, run);
    var op := ClientOpOf(s, e);
    UsableOp(cfg, run, e);
    ClientStepKeepsInv(s.client, op);
    if ClientStep(s.client, op).Some? {
      hide ClientStep, CachedInv, Usable;
      ListingAfterStep(s.client, op);
      if BringsNew(s.client, op) {
        WrittenExtended(cfg, run, e, s.agent.value.hosts.Keys, s.agent.value.version.value);
      } else {
        WrittenExtended(cfg, run, e, KeySet(s.client.value.nodeList), s.client.value.version);
      }
    }
  }

  lemma ClientUntouched(cfg: Config, run: seq<SysEvent>, e: SysEvent)
    requires Traced(cfg, run)
    ensures var c := SysRun(cfg, run).client;
            c.Some? ==> Written(cfg, run + [e], KeySet(c.value.nodeList), c.value.version)
  {
    var c := SysRun(cfg, run).client;
    if c.Some? { WrittenExtended(cfg, run, e, KeySet(c.value.nodeList), c.value.version); }
  }

  lemma AgentUntouched(cfg: Config, run: seq<SysEvent>, e: SysEvent)
    requires Traced(cfg, run)
    ensures var m := SysRun(cfg, run).agent;
            m.Some? && m.value.hosts != map[] ==>
              m.value.version.Some? && Written(cfg, run + [e], m.value.hosts.Keys, m.value.version.value)
  {
    var m := SysRun(cfg, run).agent;
    if m.Some? && m.value.hosts != map[] {
      WrittenExtended(cfg, run, e, m.value.hosts.Keys, m.value.version.value);
    }
  }

  lemma StepStaysTraced(cfg: Config, run: seq<SysEvent>, e: SysEvent)
    requires PossibleRun(cfg, run) && Traced(cfg, run) && Possible(SysRun(cfg, run), e)
    ensures Traced(cfg, run + [e])
  {
    var s := SysRun(cfg, run);
    RunExtended(cfg, run, e);
    hide SysRun, ModStep, ClientStep, Written, Possible, PossibleRun;
    match e
    case AtAgent(now, op) =>
      AgentStaysTraced(cfg, run, e, now, op);
      ClientUntouched(cfg, run, e);
    case Ask(now, delivery, _) =>
      AgentStaysTraced(cfg, run, e, now, CacheRouteReq(VersionOf(s.client)));
      AgentUntouched(cfg, run, e);
      ClientStaysTraced(cfg, run, e);
    case AtClient(cop) =>
      AgentUntouched(cfg, run, e);
      ClientStaysTraced(cfg, run, e);
  }

  lemma PossiblePrefix(cfg: Config, run: seq<SysEvent>)
    requires PossibleRun(cfg, run) && run != []
    ensures PossibleRun(cfg, run[..|run| - 1])
    ensures Possible(SysRun(cfg, run[..|run| - 1]), run[|run| - 1])
  {
    var earlier := run[..|run| - 1];
    forall i | 0 <= i < |earlier| ensures Possible(SysRun(cfg, earlier[..i]), earlier[i]) {
      assert earlier[..i] == run[..i];
    }
  }

  lemma NothingHappened(cfg: Config)
    ensures Traced(cfg, [])
  {
  }

  lemma {:induction false} EveryRunIsTraced(cfg: Config, run: seq<SysEvent>)
    requires PossibleRun(cfg, run)
    ensures Traced(cfg, run)
  {
    hide *;
    if run == [] {
      NothingHappened(cfg);
    } else {
      var earlier, last := run[..|run| - 1], run[|run| - 1];
      PossiblePrefix(cfg, run);
      EveryRunIsTraced(cfg, earlier);
      StepStaysTraced(cfg, earlier, last);
      assert earlier + [last] == run;
    }
  }

  // ---------- Agreement ----------

  /** Changes of the host set that were stamped with the same second brought the
      same hosts. */
  ghost predicate StampsTellHosts(cfg: Config, run: seq<SysEvent>) {
    forall i, j :: WritesVersion(cfg, run, i) && WritesVersion(cfg, run, j) && run[i].now == run[j].now ==>
      KeySet(run[i].op.hosts) == KeySet(run[j].op.hosts)
  }

  /** A cached copy with the agent's version lists exactly the agent's hosts, each once. */
  predicate Agrees(s: System) {
    s.client.Some? && s.agent.Some? && s.agent.value.hosts != map[]
    && s.agent.value.version == Some(s.client.value.version) ==>
      ListsHosts(s.client.value.nodeList, s.agent.value)
  }

  /** If a stamp tells the hosts, so does a version. */
  lemma SameVersionSameHosts(cfg: Config, run: seq<SysEvent>)
    requires PossibleRun(cfg, run) && StampsTellHosts(cfg, run)
    ensures Agrees(SysRun(cfg, run))
  {
    EveryRunIsTraced(cfg, run);
    var s := SysRun(cfg, run);
    if s.client.Some? && s.agent.Some? && s.agent.value.hosts != map[]
       && s.agent.value.version == Some(s.client.value.version) {
      var v := s.client.value.version;
      var i :| WritesVersion(cfg, run, i) && KeySet(run[i].op.hosts) == KeySet(s.client.value.nodeList)
               && run[i].now == v;
      var j :| WritesVersion(cfg, run, j) && KeySet(run[j].op.hosts) == s.agent.value.hosts.Keys
               && run[j].now == v;
      assert KeySet(run[i].op.hosts) == KeySet(run[j].op.hosts);
    }
  }

  /** The agent's part of an exchange changes nothing the reply is about. */
  lemma AgentAnswers(cfg: Config, now: int, s: Lb, have: int)
    requires Inv(cfg, s)
    ensures var r := ModStep(cfg, now, Some(s), CacheRouteReq(have));
            r.Some? && r.value.hosts == s.hosts && r.value.version == s.version && r.value.down == s.down
  {
    PullOnlyIfStale(cfg, now, s, CacheRouteReq(have));
  }

  /** After every exchange that succeeds: the client has dropped a module the agent
      has no hosts for, or has its version, its hosts, and a flag that says whether
      any of them is overloaded. */
  lemma ExchangeAgrees(cfg: Config, run: seq<SysEvent>, e: SysEvent)
    requires PossibleRun(cfg, run + [e]) && StampsTellHosts(cfg, run + [e])
    requires e.Ask? && e.delivery == Delivered && NeedsFetch(SysRun(cfg, run).client, e.now)
    requires !Aborts(SysRun(cfg, run).agent, CacheRouteReq(VersionOf(SysRun(cfg, run).client)))
    ensures var m, r := SysRun(cfg, run).agent, SysRun(cfg, run + [e]);
            if m.None? || m.value.hosts == map[] then r.client == None
            else
              && r.client.Some? && r.agent.Some?
              && r.agent.value.version == Some(r.client.value.version)
              && ListsHosts(r.client.value.nodeList, r.agent.value)
              && (r.client.value.overload <==> r.agent.value.down != [])
  {
    var s := SysRun(cfg, run);
    assert (run + [e])[..|run|] == run;
    PossiblePrefix(cfg, run + [e]);
    EveryRunIsTraced(cfg, run);
    RepliesAreUsable(cfg, run, e);
    RunExtended(cfg, run, e);
    SameVersionSameHosts(cfg, run + [e]);
    ReplyIsTaken(s.client, e.now, FetchOf(s, e));
    if s.agent.Some? && s.agent.value.hosts != map[] {
      WrittenVersionIsNotMissing(cfg, run, s.agent.value.hosts.Keys, s.agent.value.version.value);
      AgentAnswers(cfg, e.now, s.agent.value, VersionOf(s.client));
      hide *;
    }
  }

  lemma PossibleExtended(cfg: Config, run: seq<SysEvent>, e: SysEvent)
    requires PossibleRun(cfg, run) && Possible(SysRun(cfg, run), e)
    ensures PossibleRun(cfg, run + [e])
  {
    hide Possible, SysRun;
    forall i | 0 <= i < |run + [e]| ensures Possible(SysRun(cfg, (run + [e])[..i]), (run + [e])[i]) {
      assert (run + [e])[..i] == run[..i];
      if i == |run| { assert run[..i] == run; }
    }
  }

  /** An update of the entry gives it the new hosts, and the stamp if they differ. */
  lemma UpdateStep(cfg: Config, run: seq<SysEvent>, t: int, hosts: seq<Addr>)
    requires PossibleRun(cfg, run) && t >= 0 && hosts != []
    requires var m := SysRun(cfg, run).agent; m.Some? && m.value.hosts.Keys != KeySet(hosts)
    ensures var r := SysRun(cfg, run + [AtAgent(t, RouteUpdate(hosts))]);
            && PossibleRun(cfg, run + [AtAgent(t, RouteUpdate(hosts))])
            && r.client == SysRun(cfg, run).client && r.agent.Some?
            && r.agent.value.hosts.Keys == KeySet(hosts) && r.agent.value.hosts != map[]
            && r.agent.value.version == Some(t)
  {
    var e := AtAgent(t, RouteUpdate(hosts));
    var s := SysRun(cfg, run);
    PossibleExtended(cfg, run, e);
    RunExtended(cfg, run, e);
    StepOnView(cfg, t, s.agent.value, e.op);
    var r := ModStep(cfg, t, s.agent, e.op).value;
    assert ViewOf(r).keys == r.hosts.Keys && ViewOf(r).version == r.version;
    KeySetOf(hosts, 0);
  }

  /** A first fetch by a client without the module. */
  lemma FirstFetch(cfg: Config, run: seq<SysEvent>, t: int, a: seq<Addr>)
    requires PossibleRun(cfg, run) && t >= 0
    requires var s := SysRun(cfg, run);
             && s.client == None && s.agent.Some? && s.agent.value.hosts != map[]
             && s.agent.value.version == Some(t) && ListsHosts(a, s.agent.value)
    ensures var r := SysRun(cfg, run + [Ask(t, Delivered, a)]);
            && PossibleRun(cfg, run + [Ask(t, Delivered, a)])
            && r.client.Some? && r.client.value.version == t
            && KeySet(r.client.value.nodeList) == KeySet(a)
            && r.agent.Some? && r.agent.value.hosts == SysRun(cfg, run).agent.value.hosts
  {
    var e := Ask(t, Delivered, a);
    var s := SysRun(cfg, run);
    PossibleExtended(cfg, run, e);
    RunExtended(cfg, run, e);
    EveryRunIsTraced(cfg, run);
    RepliesAreUsable(cfg, run, e);
    AgentAnswers(cfg, t, s.agent.value, -1);
    var f := FetchOf(s, e);
    assert f == Fetched(t, s.agent.value.down != [], a);
    hide Inv, ModStep, Traced;
    ReplyIsTaken(None, t, f);
    hide ClientStep;
    ListingAfterStep(None, GetCall(t, f));
  }

  /** Sharing a stamp does break agreement: for every second and every two different
      host sets, a client that fetched between the two updates keeps the old hosts
      under the agent's version. */
  lemma SharedStampDisagrees(cfg: Config, t: int, a: seq<Addr>, b: seq<Addr>)
    requires t >= 0 && a != [] && b != [] && NoDuplicates(Keys(a)) && KeySet(a) != KeySet(b)
    ensures var run := [AtAgent(t, ToolRouteReq)] + [AtAgent(t, RouteUpdate(a))] + [Ask(t, Delivered, a)]
                       + [AtAgent(t, RouteUpdate(b))];
            var s := SysRun(cfg, run);
            && PossibleRun(cfg, run)
            && s.client.Some? && s.agent.Some? && s.agent.value.hosts != map[]
            && s.agent.value.version == Some(s.client.value.version)
            && KeySet(s.client.value.nodeList) != s.agent.value.hosts.Keys
  {
    var first := [AtAgent(t, ToolRouteReq)];
    EntryMade(cfg, t);
    KeySetOf(a, 0);
    hide *;
    UpdateStep(cfg, first, t, a);
    FirstFetch(cfg, first + [AtAgent(t, RouteUpdate(a))], t, a);
    UpdateStep(cfg, first + [AtAgent(t, RouteUpdate(a))] + [Ask(t, Delivered, a)], t, b);
  }

  lemma EntryMade(cfg: Config, t: int)
    ensures SysRun(cfg, [AtAgent(t, ToolRouteReq)]) == System(Some(NEW_LB), None)
    ensures PossibleRun(cfg, [AtAgent(t, ToolRouteReq)])
  {
    var e := AtAgent(t, ToolRouteReq);
    assert [] + [e] == [e];
    RunExtended(cfg, [], e);
    PossibleExtended(cfg, [], e);
  }

  // ---------- Conservation with a real agent ----------

  /** What the client does in a run, with the replies it gets. */
  function ClientOps(cfg: Config, run: seq<SysEvent>): seq<ClientOp> {
    if run == [] then []
    else
      var earlier, last := run[..|run| - 1], run[|run| - 1];
      ClientOps(cfg, earlier) + if last.AtAgent? then [] else [ClientOpOf(SysRun(cfg, earlier), last)]
  }

  lemma UsableExtended(run: seq<ClientOp>, op: ClientOp)
    requires UsableRun(run) && (op.GetCall? ==> Usable(ClientRun(run), op.fetch))
    ensures UsableRun(run + [op]) && ClientRun(run + [op]) == ClientStep(ClientRun(run), op)
  {
    hide Usable, ClientStep;
    assert (run + [op])[..|run|] == run;
    forall i | 0 <= i < |run + [op]| && (run + [op])[i].GetCall?
      ensures Usable(ClientRun((run + [op])[..i]), (run + [op])[i].fetch)
    {
      assert (run + [op])[..i] == run[..i];
      if i == |run| { assert run[..i] == run; }
    }
  }

  lemma {:induction false} AgentRepliesAreUsable(cfg: Config, run: seq<SysEvent>)
    requires PossibleRun(cfg, run)
    ensures UsableRun(ClientOps(cfg, run)) && ClientRun(ClientOps(cfg, run)) == SysRun(cfg, run).client
  {
    if run != [] {
      var earlier, last := run[..|run| - 1], run[|run| - 1];
      hide ModStep, ClientStep, Usable, UsableRun, Possible, Traced, PossibleRun;
      PossiblePrefix(cfg, run);
      AgentRepliesAreUsable(cfg, earlier);
      EveryRunIsTraced(cfg, earlier);
      if last.AtAgent? {
        assert ClientOps(cfg, run) == ClientOps(cfg, earlier);
      } else {
        UsableOp(cfg, earlier, last);
        UsableExtended(ClientOps(cfg, earlier), ClientOpOf(SysRun(cfg, earlier), last));
      }
    }
  }

  /** With any agent and any losses: the client never takes a host from an empty
      list, and successes accepted = successes sent + successes held. */
  lemma ConservedWithAgent(cfg: Config, run: seq<SysEvent>, k: Uint64)
    requires PossibleRun(cfg, run)
    ensures var c := SysRun(cfg, run).client;
            && (c.Some? ==> c.value.nodeList != [])
            && AcceptedCount(ClientOps(cfg, run), k) == EmittedCount(ClientOps(cfg, run), k) + Pending(c, k)
  {
    AgentRepliesAreUsable(cfg, run);
    ClientRunKeepsInv(ClientOps(cfg, run));
    SuccessesAreConserved(ClientOps(cfg, run), k);
  }
}
