/** The agent's table of modules: a map of load balancers and the two queues it
    writes. Each method is one critical section of the code; it acts on one module
    exactly as `Agent.ModStep` says and leaves all other modules alone. */
module RouteTable {
  import opened Wrappers
  import opened Words
  import opened Sequences
  import opened Hosts
  import opened LoadBalancer
  import opened Balancer
  import opened Agent

  const NOEXIST := -9998

  /** `Aborted` stands for the failed assertion on an empty entry. */
  datatype HostReply = Aborted | Replied(ret: int, host: Option<Addr>)

  datatype CacheReply = CacheAborted | CacheReplied(version: int, overload: bool, route: seq<Addr>)

  type Table = map<Uint64, Lb>

  function ModAt(t: Table, key: Uint64): Mod {
    if key in t then Some(t[key]) else None
  }

  function WithMod(t: Table, key: Uint64, m: Mod): Table {
    if m.Some? then t[key := m.value] else t - {key}
  }

  function TableStep(cfg: Config, now: int, t: Table, key: Uint64, op: ModOp): Table
    requires ModInv(cfg, ModAt(t, key))
  {
    WithMod(t, key, ModStep(cfg, now, ModAt(t, key), op))
  }

  /** The pull requests an operation adds to the queue. */
  function PullMsgs(cfg: Config, now: int, m: Mod, op: ModOp, modid: Int32, cmdid: Int32): seq<(Int32, Int32)> {
    if Pulls(cfg, now, m, op) then [(modid, cmdid)] else []
  }

  function HostAnswer(cfg: Config, m: Mod): HostReply {
    if Aborts(m, GetHostReq) then Aborted
    else if m.None? || m.value.hosts == map[] then Replied(NOEXIST, None)
    else
      var (ret, host) := Answer(Choose(cfg, m.value));
      Replied(ret, host)
  }

  /** How a request for a host is answered, for every entry and for none. */
  lemma HostAnswerMeans(cfg: Config, m: Mod)
    requires ModInv(cfg, m)
    ensures m.None? ==> HostAnswer(cfg, m) == Replied(-9998, None)
    ensures m.Some? && m.value.hosts == map[] ==>
              HostAnswer(cfg, m) == if m.value.status == IsPulling then Replied(-9998, None) else Aborted
    ensures m.Some? && m.value.hosts != map[] ==>
              var s := m.value;
              if s.down != [] && s.accessCnt >= cfg.probeNum then
                HostAnswer(cfg, m) == Replied(0, Some(AddrOf(s.down[0])))
              else if s.running != [] then HostAnswer(cfg, m) == Replied(0, Some(AddrOf(s.running[0])))
              else HostAnswer(cfg, m) == Replied(-10000, None)
  {
  }

  /** A list of addresses that names every host once, in any order. */
  predicate ListsHosts(route: seq<Addr>, s: Lb) {
    NoDuplicates(Keys(route)) && KeySet(route) == s.hosts.Keys
  }

  predicate AnswersCache(m: Mod, have: int, r: CacheReply) {
    if Aborts(m, CacheRouteReq(have)) then r == CacheAborted
    else if m.None? || m.value.hosts == map[] then r == CacheReplied(-1, false, [])
    else
      && r.CacheReplied?
      && m.value.version == Some(r.version)
      && r.overload == (m.value.down != [])
      && if r.version == have then r.route == [] else ListsHosts(r.route, m.value)
  }

  /** How a client's request for a route is answered: the version -1 without hosts, else
      the module's version and whether any host is overloaded, and its hosts, each
      once, exactly if the client has another version. */
  lemma CacheAnswerMeans(cfg: Config, m: Mod, have: int, r: CacheReply)
    requires ModInv(cfg, m) && AnswersCache(m, have, r)
    ensures m.None? ==> r == CacheReplied(-1, false, [])
    ensures m.Some? && m.value.hosts == map[] ==>
              r == if m.value.status == IsPulling then CacheReplied(-1, false, []) else CacheAborted
    ensures m.Some? && m.value.hosts != map[] ==>
              && r.CacheReplied? && m.value.version == Some(r.version)
              && (r.overload <==> exists k :: k in m.value.hosts && m.value.hosts[k].overload)
              && (r.version == have ==> r.route == [])
              && (r.version != have ==> NoDuplicates(Keys(r.route)) && KeySet(r.route) == m.value.hosts.Keys)
  {
    if m.Some? && m.value.hosts != map[] {
      var s := m.value;
      if s.down != [] { assert s.down[0] in s.down && s.hosts[s.down[0]].overload; }
      if k :| k in s.hosts && s.hosts[k].overload { assert k in s.down; }
    }
  }

  /** A host request to a known module, spelled out. */
  lemma HostRequest(cfg: Config, now: int, s: Lb)
    requires Inv(cfg, s)
    ensures s.hosts == map[] ==>
              && ModStep(cfg, now, Some(s), GetHostReq) == Some(s)
              && !Pulls(cfg, now, Some(s), GetHostReq)
              && HostAnswer(cfg, Some(s)) == if s.status != IsPulling then Aborted else Replied(NOEXIST, None)
    ensures s.hosts != map[] ==>
              && ModStep(cfg, now, Some(s), GetHostReq) == Some(PulledIfStale(cfg, now, AfterChoice(cfg, s)))
              && (Pulls(cfg, now, Some(s), GetHostReq) <==> Stale(cfg, now, s))
              && (Stale(cfg, now, AfterChoice(cfg, s)) <==> Stale(cfg, now, s))
              && HostAnswer(cfg, Some(s)) == Replied(Answer(Choose(cfg, s)).0, Answer(Choose(cfg, s)).1)
  {
    PullOnlyIfStale(cfg, now, s, GetHostReq);
    if s.hosts != map[] { SelectThenPull(cfg, now, s); }
  }

  /** A request to an unknown module makes an entry, pulls its route and fails. */
  lemma UnknownModule(cfg: Config, now: int, op: ModOp)
    requires op.GetHostReq? || op.ToolRouteReq? || op.CacheRouteReq?
    ensures ModInv(cfg, None) && ModStep(cfg, now, None, op) == Some(NEW_LB) && Pulls(cfg, now, None, op)
    ensures HostAnswer(cfg, None) == Replied(NOEXIST, None)
    ensures op.CacheRouteReq? ==> AnswersCache(None, op.version, CacheReplied(-1, false, []))
  {
  }

  lemma ToolRequest(cfg: Config, now: int, s: Lb)
    requires Inv(cfg, s)
    ensures ModStep(cfg, now, Some(s), ToolRouteReq) == Some(PulledIfStale(cfg, now, s))
    ensures Pulls(cfg, now, Some(s), ToolRouteReq) <==> Stale(cfg, now, s)
  {
    PullOnlyIfStale(cfg, now, s, ToolRouteReq);
  }

  lemma CacheRequest(cfg: Config, now: int, s: Lb, version: int)
    requires Inv(cfg, s)
    ensures ModStep(cfg, now, Some(s), CacheRouteReq(version))
         == Some(if s.hosts == map[] then s else PulledIfStale(cfg, now, s))
    ensures Pulls(cfg, now, Some(s), CacheRouteReq(version)) <==> s.hosts != map[] && Stale(cfg, now, s)
    ensures s.hosts != map[] ==> s.version.Some?
  {
    PullOnlyIfStale(cfg, now, s, CacheRouteReq(version));
  }

  lemma RefreshRequest(cfg: Config, now: int, s: Lb, hosts: seq<Addr>)
    requires Inv(cfg, s)
    ensures ModStep(cfg, now, Some(s), RouteUpdate(hosts))
         == if hosts == [] then None else Some(Refreshed(cfg, now, s, hosts))
  {
    hide LbRun, Inv, Refreshed, AllAt;
    RunOfOne(cfg, now, s, Refresh(hosts));
  }

  function NotPulling(s: Lb): Lb {
    s.(status := IsNew)
  }

  /** The table after a reconnect has reached the given entries. */
  function Cleared(t: Table, done: set<Uint64>): Table {
    map k | k in t :: if k in done then NotPulling(t[k]) else t[k]
  }

  lemma OneMoreCleared(t: Table, left: set<Uint64>, key: Uint64)
    requires key in left && left <= t.Keys
    ensures key in Cleared(t, t.Keys - left) && Cleared(t, t.Keys - left)[key] == t[key]
    ensures Cleared(t, t.Keys - left)[key := NotPulling(t[key])] == Cleared(t, t.Keys - (left - {key}))
    ensures t[key].status == IsNew ==> NotPulling(t[key]) == t[key]
  {
  }

  /** A reconnect is a `Disconnect` step of every entry. */
  lemma ClearedIsDisconnect(cfg: Config, now: int, t: Table, key: Uint64)
    requires ModInv(cfg, ModAt(t, key))
    ensures ModAt(Cleared(t, t.Keys), key) == ModStep(cfg, now, ModAt(t, key), Disconnect)
  {
    if key in t { RunOfOne(cfg, now, t[key], ClearPulling); }
  }

  /** The status message sent after reports that left the balancer in state s. */
  function StatusMsgs(cfg: Config, now: int, s: Lb, modid: Int32, cmdid: Int32): seq<StatusMsg>
    requires Wired(s)
  {
    if ReporterDue(cfg, now, s) then [StatusMsg(modid, cmdid, now, ToInt32(cfg.myIp), Results(s))] else []
  }

  /** The state after a batch of successes, before the reporter is told. */
  function AfterBatch(cfg: Config, now: int, s: Lb, results: seq<BatchResult>): (r: Lb)
    requires Inv(cfg, s)
    ensures Inv(cfg, r)
  {
    LbRun(cfg, s, AllAt(now, BatchOps(results)))
  }

  lemma BatchThenTell(cfg: Config, now: int, s: Lb, results: seq<BatchResult>)
    requires Inv(cfg, s)
    ensures ModStep(cfg, now, Some(s), BatchReq(results))
         == Some(ToldReporter(cfg, now, AfterBatch(cfg, now, s, results)))
  {
    RunConcat(cfg, now, s, BatchOps(results), TellReporter);
  }

  lemma BatchOfNone(cfg: Config, now: int, s: Lb)
    requires Inv(cfg, s)
    ensures AfterBatch(cfg, now, s, []) == s
  {
    RunOfNone(cfg, now, s);
  }

  lemma BatchExtended(cfg: Config, now: int, s: Lb, results: seq<BatchResult>, i: nat)
    requires Inv(cfg, s) && i < |results|
    ensures AfterBatch(cfg, now, s, results[..i + 1])
         == Reported(cfg, now, AfterBatch(cfg, now, s, results[..i]), results[i].addr.Key(), Succs(results[i].succCnt))
  {
    assert results[..i + 1][..i] == results[..i];
    RunConcat(cfg, now, s, BatchOps(results[..i]), Report(results[i].addr, Succs(results[i].succCnt)));
  }

  lemma ReportedInv(cfg: Config, now: int, s: Lb, host: Addr, op: HostOp)
    requires Inv(cfg, s)
    ensures Inv(cfg, Reported(cfg, now, s, host.Key(), op)) && Wired(Reported(cfg, now, s, host.Key(), op))
  {
    ReportedKeepsInv(cfg, now, s, host.Key(), op);
  }

  ghost function HostsOf(m: map<Uint64, LB>): set<HI>
    reads m.Values
  {
    set k, h | k in m && h in m[k].hostMap.Values :: h
  }

  lemma HostsOfOne(m: map<Uint64, LB>, k: Uint64)
    requires k in m
    ensures m[k].hostMap.Values <= HostsOf(m)
  {
  }

  ghost function StateOf(m: map<Uint64, LB>, k: Uint64): Lb
    requires k in m
    reads m.Values, HostsOf(m)
  {
    HostsOfOne(m, k);
    m[k].State()
  }

  /** A balancer of the table: valid, and under the key of its module. */
  ghost predicate ValidAt(cfg: Config, m: map<Uint64, LB>, k: Uint64)
    requires k in m
    reads m.Values, HostsOf(m)
  {
    HostsOfOne(m, k);
    m[k].Valid() && m[k].cfg == cfg && Pack(m[k].modid, m[k].cmdid) == k
  }

  ghost predicate Disjoint(m: map<Uint64, LB>)
    reads m.Values
  {
    forall k, k' :: k in m && k' in m && k != k' ==>
      m[k] != m[k'] && m[k].hostMap.Values !! m[k'].hostMap.Values
  }

  class RouteLB {
    const cfg: Config
    const pullQueue: Outbox<(Int32, Int32)>
    const reptQueue: Outbox<StatusMsg>
    var routeMap: map<Uint64, LB>

    ghost function Repr(): set<object>
      reads this, routeMap.Values
    {
      {this} + routeMap.Values + HostsOf(routeMap)
    }

    ghost function State(): Table
      reads this, routeMap.Values, HostsOf(routeMap)
    {
      map k | k in routeMap :: StateOf(routeMap, k)
    }

    /** Every balancer is valid, has the key of its module, and shares no object with another. */
    ghost predicate Valid()
      reads this, routeMap.Values, HostsOf(routeMap)
    {
      (forall k :: k in routeMap ==> ValidAt(cfg, routeMap, k)) && Disjoint(routeMap)
    }

    constructor (cfg: Config, pullQueue: Outbox<(Int32, Int32)>, reptQueue: Outbox<StatusMsg>)
      ensures Valid() && State() == map[] && fresh(Repr())
      ensures this.cfg == cfg && this.pullQueue == pullQueue && this.reptQueue == reptQueue
    {
      this.cfg, this.pullQueue, this.reptQueue := cfg, pullQueue, reptQueue;
      routeMap := map[];
    }

    twostate lemma OtherUnchanged(k: Uint64)
      requires k in routeMap && k in old(routeMap) && routeMap[k] == old(routeMap)[k]
      requires unchanged(routeMap[k]) && unchanged(routeMap[k].hostMap.Values)
      requires old(ValidAt(cfg, routeMap, k))
      ensures ValidAt(cfg, routeMap, k)
      ensures StateOf(routeMap, k) == old(StateOf(routeMap, k))
    {
      hide Inv, Links, KeysOf;
      assert routeMap[k].State() == old(routeMap[k].State());
    }

    twostate lemma OthersUnchanged(key: Uint64)
      requires old(Valid())
      requires forall k :: k != key ==> (k in routeMap <==> k in old(routeMap))
      requires forall k :: k in routeMap && k != key ==> routeMap[k] == old(routeMap)[k] && unchanged(routeMap[k])
      requires forall k :: k in routeMap && k != key ==> unchanged(routeMap[k].hostMap.Values)
      ensures forall k :: k in routeMap && k != key ==>
                ValidAt(cfg, routeMap, k) && StateOf(routeMap, k) == old(StateOf(routeMap, k))
    {
      hide LB.Valid, LB.State, Disjoint;
      forall k | k in routeMap && k != key
        ensures ValidAt(cfg, routeMap, k) && StateOf(routeMap, k) == old(StateOf(routeMap, k))
      {
        OtherUnchanged(k);
      }
    }

    /** A table none of whose objects changed is what it was. */
    twostate lemma Untouched()
      requires old(Valid()) && unchanged(this)
      requires forall k :: k in routeMap ==> unchanged(routeMap[k]) && unchanged(routeMap[k].hostMap.Values)
      ensures Valid() && State() == old(State()) && Repr() == old(Repr())
    {
      hide LB.Valid, LB.State;
      forall k | k in routeMap
        ensures ValidAt(cfg, routeMap, k) && StateOf(routeMap, k) == old(StateOf(routeMap, k))
      {
        OtherUnchanged(k);
      }
      assert State() == old(State());
    }

    /** The entry of key, if any, consists of its old objects and of new ones. */
    twostate predicate EntryIsOwn(key: Uint64)
      reads *
    {
      key in routeMap ==>
        if key in old(routeMap) then
          && routeMap[key] == old(routeMap)[key]
          && fresh(routeMap[key].hostMap.Values - old(routeMap[key].hostMap.Values))
        else
          fresh(routeMap[key]) && fresh(routeMap[key].hostMap.Values)
    }

    twostate lemma StillDisjoint(key: Uint64)
      requires old(Disjoint(routeMap))
      requires forall k :: k != key ==> (k in routeMap <==> k in old(routeMap))
      requires forall k :: k in routeMap && k != key ==> routeMap[k] == old(routeMap)[k] && unchanged(routeMap[k])
      requires forall k :: k in routeMap && k != key ==> unchanged(routeMap[k].hostMap.Values)
      requires EntryIsOwn(key)
      ensures Disjoint(routeMap)
      ensures fresh(Repr() - old(Repr()))
    {
    }

    /** One entry was changed, added or removed; the table follows. */
    twostate lemma OneEntryChanged(key: Uint64)
      requires old(Valid())
      requires forall k :: k != key ==> (k in routeMap <==> k in old(routeMap))
      requires forall k :: k in routeMap && k != key ==> routeMap[k] == old(routeMap)[k] && unchanged(routeMap[k])
      requires forall k :: k in routeMap && k != key ==> unchanged(routeMap[k].hostMap.Values)
      requires EntryIsOwn(key)
      requires key in routeMap ==> ValidAt(cfg, routeMap, key)
      ensures Valid() && fresh(Repr() - old(Repr()))
      ensures State() == WithMod(old(State()), key, if key in routeMap then Some(routeMap[key].State()) else None)
    {
      hide LB.Valid, LB.State, Disjoint;
      StillDisjoint(key);
      OthersUnchanged(key);
      StateFollows(key);
    }

    twostate lemma StateFollows(key: Uint64)
      requires forall k :: k != key ==> (k in routeMap <==> k in old(routeMap))
      requires forall k :: k in routeMap && k != key ==> StateOf(routeMap, k) == old(StateOf(routeMap, k))
      ensures State() == WithMod(old(State()), key, if key in routeMap then Some(routeMap[key].State()) else None)
    {
      hide LB.State;
      if key in routeMap { assert StateOf(routeMap, key) == routeMap[key].State(); }
    }

    /** Queues a pull for a route that is complete but old. */
    method PullIfStale(lb: LB, now: int)
      requires lb.Valid() && lb.cfg == cfg
      modifies lb`status, pullQueue
      ensures lb.Valid() && lb.State() == PulledIfStale(cfg, now, old(lb.State()))
      ensures pullQueue.messages
           == old(pullQueue.messages) + if Stale(cfg, now, old(lb.State())) then [(lb.modid, lb.cmdid)] else []
    {
      hide LB.Valid, Inv;
      if lb.status == IsNew && now - lb.effectData > cfg.updateTimo {
        lb.Pull(pullQueue);
      }
    }

    /** The part of `GetHost` that concerns a known module. */
    method AskBalancer(lb: LB, now: int) returns (reply: HostReply)
      requires lb.Valid() && lb.cfg == cfg
      modifies lb, pullQueue
      ensures lb.Valid() && lb.hostMap == old(lb.hostMap)
      ensures Some(lb.State()) == ModStep(cfg, now, Some(old(lb.State())), GetHostReq)
      ensures reply == HostAnswer(cfg, Some(old(lb.State())))
      ensures pullQueue.messages == old(pullQueue.messages)
              + PullMsgs(cfg, now, Some(old(lb.State())), GetHostReq, lb.modid, lb.cmdid)
    {
      hide LB.Valid, LB.State, Inv, ModStep, Pulls, HostAnswer, AfterChoice, Choose, Answer, Stale, PulledIfStale;
      lb.Facts();
      HostRequest(cfg, now, lb.State());
      if lb.hostMap == map[] {
        if lb.status != IsPulling { return Aborted; }
        return Replied(NOEXIST, None);
      }
      var ret, host := lb.SelectHost();
      reply := Replied(ret, host);
      PullIfStale(lb, now);
    }

    /** Makes an entry for a module that is not known and asks for its first route. */
    method AddEntry(modid: Int32, cmdid: Int32)
      requires Valid() && Pack(modid, cmdid) !in routeMap
      modifies this`routeMap, pullQueue
      ensures Valid() && fresh(Repr() - old(Repr()))
      ensures State() == old(State())[Pack(modid, cmdid) := NEW_LB]
      ensures pullQueue.messages == old(pullQueue.messages) + [(modid, cmdid)]
    {
      hide Inv, Links, KeysOf, ValuesOf, Disjoint;
      var lb := new LB(cfg, modid, cmdid);
      lb.Pull(pullQueue);
      routeMap := routeMap[Pack(modid, cmdid) := lb];
      OneEntryChanged(Pack(modid, cmdid));
    }

    /** A host to call for a module. */
    method GetHost(modid: Int32, cmdid: Int32, now: int) returns (reply: HostReply)
      requires Valid()
      modifies Repr(), pullQueue
      ensures Valid() && fresh(Repr() - old(Repr()))
      ensures ModInv(cfg, ModAt(old(State()), Pack(modid, cmdid)))
      ensures State() == TableStep(cfg, now, old(State()), Pack(modid, cmdid), GetHostReq)
      ensures reply == HostAnswer(cfg, ModAt(old(State()), Pack(modid, cmdid)))
      ensures pullQueue.messages == old(pullQueue.messages)
              + PullMsgs(cfg, now, ModAt(old(State()), Pack(modid, cmdid)), GetHostReq, modid, cmdid)
    {
      hide LB.Valid, LB.State, ModStep, Pulls, HostAnswer, Pack, ModInv;
      var key := Pack(modid, cmdid);
      UnknownModule(cfg, now, GetHostReq);
      if key in routeMap {
        EntryIsKnown(key);
        PackInjective(modid, cmdid, routeMap[key].modid, routeMap[key].cmdid);
        reply := AskBalancer(routeMap[key], now);
        OneEntryChanged(key);
      } else {
        AddEntry(modid, cmdid);
        reply := Replied(NOEXIST, None);
      }
    }

    lemma EntryIsKnown(key: Uint64)
      requires Valid() && key in routeMap
      ensures ModAt(State(), key) == Some(routeMap[key].State()) && ModInv(cfg, ModAt(State(), key))
      ensures routeMap[key].Valid() && routeMap[key].cfg == cfg
      ensures Pack(routeMap[key].modid, routeMap[key].cmdid) == key
    {
      assert ValidAt(cfg, routeMap, key);
      assert StateOf(routeMap, key) == routeMap[key].State();
    }

    /** The part of `Report` that concerns a known module. */
    method ReportTo(lb: LB, host: Addr, retcode: int, tcost: Option<nat>, now: int)
      requires lb.Valid() && lb.cfg == cfg && (tcost.Some? ==> retcode != 0)
      modifies lb, lb.hostMap.Values, reptQueue
      ensures lb.Valid() && lb.hostMap == old(lb.hostMap)
      ensures Inv(cfg, old(lb.State()))
      ensures Some(lb.State()) == ModStep(cfg, now, Some(old(lb.State())), ReportReq(host, retcode, tcost))
      ensures var s := Reported(cfg, now, old(lb.State()), host.Key(), Outcome(retcode, tcost));
              Wired(s) && reptQueue.messages == old(reptQueue.messages) + StatusMsgs(cfg, now, s, lb.modid, lb.cmdid)
    {
      hide LB.Valid, LB.State, Inv, ModStep, Reported, ReporterDue, Results;
      lb.Facts();
      ReportThenTell(cfg, now, lb.State(), host, retcode, tcost);
      ReportedInv(cfg, now, lb.State(), host, Outcome(retcode, tcost));
      var errcnt: nat := 1;
      if tcost.Some? {
        errcnt := tcost.value / 100;
        if errcnt == 0 {
          errcnt := 1;
        } else if errcnt > 50 {
          errcnt := 50;
        }
      }
      if errcnt == 1 {
        lb.Report(host.ip, host.port, retcode, now);
      } else {
        lb.ReportSomeErr(host.ip, host.port, errcnt, now);
      }
      lb.Report2Rpter(reptQueue, now);
    }

    /** One call's outcome; a failure that took long counts several times. */
    method Report(modid: Int32, cmdid: Int32, host: Addr, retcode: int, tcost: Option<nat>, now: int)
      requires Valid() && (tcost.Some? ==> retcode != 0)
      modifies Repr(), reptQueue
      ensures Valid() && fresh(Repr() - old(Repr()))
      ensures ModInv(cfg, ModAt(old(State()), Pack(modid, cmdid)))
      ensures State() == TableStep(cfg, now, old(State()), Pack(modid, cmdid), ReportReq(host, retcode, tcost))
      ensures match ModAt(old(State()), Pack(modid, cmdid))
              case None => reptQueue.messages == old(reptQueue.messages)
              case Some(m) =>
                && Inv(cfg, m)
                && var s := Reported(cfg, now, m, host.Key(), Outcome(retcode, tcost));
                   Wired(s)
                   && reptQueue.messages == old(reptQueue.messages) + StatusMsgs(cfg, now, s, modid, cmdid)
    {
      hide LB.Valid, LB.State, Inv, Pack, Reported, StatusMsgs, LbRun, LbOps;
      var key := Pack(modid, cmdid);
      if key in routeMap {
        EntryIsKnown(key);
        PackInjective(modid, cmdid, routeMap[key].modid, routeMap[key].cmdid);
        ReportTo(routeMap[key], host, retcode, tcost, now);
        OneEntryChanged(key);
      }
    }

    /** The part of `BatchReport` that concerns a known module. */
    method BatchTo(lb: LB, results: seq<BatchResult>, now: int)
      requires lb.Valid() && lb.cfg == cfg
      modifies lb, lb.hostMap.Values, reptQueue
      ensures lb.Valid() && lb.hostMap == old(lb.hostMap)
      ensures Inv(cfg, old(lb.State()))
      ensures Some(lb.State()) == ModStep(cfg, now, Some(old(lb.State())), BatchReq(results))
      ensures reptQueue.messages == old(reptQueue.messages)
              + StatusMsgs(cfg, now, AfterBatch(cfg, now, old(lb.State()), results), lb.modid, lb.cmdid)
    {
      hide LB.Valid, LB.State, ModStep, Reported, ReporterDue, Results, AfterBatch, BatchOps;
      lb.Facts();
      ghost var s := lb.State();
      BatchThenTell(cfg, now, s, results);
      BatchOfNone(cfg, now, s);
      for i := 0 to |results|
        invariant lb.Valid() && lb.hostMap == old(lb.hostMap)
        invariant lb.State() == AfterBatch(cfg, now, s, results[..i])
        invariant reptQueue.messages == old(reptQueue.messages)
      {
        BatchExtended(cfg, now, s, results, i);
        lb.ReportSomeSucc(results[i].addr.ip, results[i].addr.port, results[i].succCnt, now);
      }
      assert results[..|results|] == results;
      lb.Report2Rpter(reptQueue, now);
    }

    /** A batch of successes collected by a client. */
    method BatchReport(modid: Int32, cmdid: Int32, results: seq<BatchResult>, now: int)
      requires Valid()
      modifies Repr(), reptQueue
      ensures Valid() && fresh(Repr() - old(Repr()))
      ensures ModInv(cfg, ModAt(old(State()), Pack(modid, cmdid)))
      ensures State() == TableStep(cfg, now, old(State()), Pack(modid, cmdid), BatchReq(results))
      ensures match ModAt(old(State()), Pack(modid, cmdid))
              case None => reptQueue.messages == old(reptQueue.messages)
              case Some(m) =>
                Inv(cfg, m) && reptQueue.messages == old(reptQueue.messages)
                               + StatusMsgs(cfg, now, AfterBatch(cfg, now, m, results), modid, cmdid)
    {
      hide LB.Valid, LB.State, Inv, Pack, StatusMsgs, LbRun, LbOps, AfterBatch;
      var key := Pack(modid, cmdid);
      if key in routeMap {
        EntryIsKnown(key);
        PackInjective(modid, cmdid, routeMap[key].modid, routeMap[key].cmdid);
        BatchTo(routeMap[key], results, now);
        OneEntryChanged(key);
      }
    }

    /** The addresses of all hosts of a balancer. */
    method Route(lb: LB) returns (route: seq<Addr>)
      requires lb.Valid()
      ensures ListsHosts(route, lb.State())
    {
      lb.Facts();
      hide LB.Valid, Inv, LB.State;
      var list := lb.GetRoute();
      route := [];
      for i := 0 to |list|
        invariant |route| == i
        invariant forall j :: 0 <= j < i ==> route[j].Key() == list[j].Key()
      {
        KeyIsOfAddr(list[i]);
        KeyOfAddrOf(list[i].Key());
        route := route + [Addr(ToInt32(list[i].ip), list[i].port)];
      }
      assert Keys(route) == KeysOf(list);
    }

    /** The part of `GetRoute` that concerns a known module. */
    method ListBalancer(lb: LB, now: int) returns (route: seq<Addr>)
      requires lb.Valid() && lb.cfg == cfg
      modifies lb, pullQueue
      ensures lb.Valid() && lb.hostMap == old(lb.hostMap)
      ensures Inv(cfg, old(lb.State()))
      ensures Some(lb.State()) == ModStep(cfg, now, Some(old(lb.State())), ToolRouteReq)
      ensures ListsHosts(route, old(lb.State()))
      ensures pullQueue.messages == old(pullQueue.messages)
              + PullMsgs(cfg, now, Some(old(lb.State())), ToolRouteReq, lb.modid, lb.cmdid)
    {
      hide LB.Valid, LB.State, ModStep, Pulls, ListsHosts, Stale, PulledIfStale;
      lb.Facts();
      ToolRequest(cfg, now, lb.State());
      route := Route(lb);
      PullIfStale(lb, now);
    }

    /** The hosts of a module, for the command-line tool. */
    method GetRoute(modid: Int32, cmdid: Int32, now: int) returns (route: seq<Addr>)
      requires Valid()
      modifies Repr(), pullQueue
      ensures Valid() && fresh(Repr() - old(Repr()))
      ensures ModInv(cfg, ModAt(old(State()), Pack(modid, cmdid)))
      ensures State() == TableStep(cfg, now, old(State()), Pack(modid, cmdid), ToolRouteReq)
      ensures match ModAt(old(State()), Pack(modid, cmdid))
              case None => route == []
              case Some(m) => ListsHosts(route, m)
      ensures pullQueue.messages == old(pullQueue.messages)
              + PullMsgs(cfg, now, ModAt(old(State()), Pack(modid, cmdid)), ToolRouteReq, modid, cmdid)
    {
      hide LB.Valid, LB.State, Inv, Pack, ListsHosts, ModStep, Pulls;
      var key := Pack(modid, cmdid);
      UnknownModule(cfg, now, ToolRouteReq);
      if key in routeMap {
        EntryIsKnown(key);
        PackInjective(modid, cmdid, routeMap[key].modid, routeMap[key].cmdid);
        route := ListBalancer(routeMap[key], now);
        OneEntryChanged(key);
      } else {
        AddEntry(modid, cmdid);
        route := [];
      }
    }

    /** The part of `CacheGetRoute` that concerns a known module. */
    method AnswerCache(lb: LB, version: int, now: int) returns (reply: CacheReply)
      requires lb.Valid() && lb.cfg == cfg
      modifies lb, pullQueue
      ensures lb.Valid() && lb.hostMap == old(lb.hostMap)
      ensures Some(lb.State()) == ModStep(cfg, now, Some(old(lb.State())), CacheRouteReq(version))
      ensures AnswersCache(Some(old(lb.State())), version, reply)
      ensures pullQueue.messages == old(pullQueue.messages)
              + PullMsgs(cfg, now, Some(old(lb.State())), CacheRouteReq(version), lb.modid, lb.cmdid)
    {
      hide LB.Valid, LB.State, ModStep, Pulls, ListsHosts, Stale, PulledIfStale;
      lb.Facts();
      CacheRequest(cfg, now, lb.State(), version);
      if lb.hostMap == map[] {
        if lb.status != IsPulling { return CacheAborted; }
        return CacheReplied(-1, false, []);
      }
      reply := CacheReplied(lb.version.value, lb.downList != [], []);
      if lb.version.value != version {
        var route := Route(lb);
        reply := reply.(route := route);
      }
      PullIfStale(lb, now);
    }

    /** A client's request for a newer version of a route. */
    method CacheGetRoute(modid: Int32, cmdid: Int32, version: int, now: int) returns (reply: CacheReply)
      requires Valid()
      modifies Repr(), pullQueue
      ensures Valid() && fresh(Repr() - old(Repr()))
      ensures ModInv(cfg, ModAt(old(State()), Pack(modid, cmdid)))
      ensures State() == TableStep(cfg, now, old(State()), Pack(modid, cmdid), CacheRouteReq(version))
      ensures AnswersCache(ModAt(old(State()), Pack(modid, cmdid)), version, reply)
      ensures pullQueue.messages == old(pullQueue.messages)
              + PullMsgs(cfg, now, ModAt(old(State()), Pack(modid, cmdid)), CacheRouteReq(version), modid, cmdid)
    {
      hide LB.Valid, LB.State, ModStep, Pulls, AnswersCache, Pack, ModInv;
      var key := Pack(modid, cmdid);
      UnknownModule(cfg, now, CacheRouteReq(version));
      if key in routeMap {
        EntryIsKnown(key);
        PackInjective(modid, cmdid, routeMap[key].modid, routeMap[key].cmdid);
        reply := AnswerCache(routeMap[key], version, now);
        OneEntryChanged(key);
      } else {
        AddEntry(modid, cmdid);
        reply := CacheReplied(-1, false, []);
      }
    }

    /** A route from the DNS server: an empty one deletes the module. */
    method Update(modid: Int32, cmdid: Int32, hosts: seq<Addr>, now: int)
      requires Valid()
      modifies Repr()
      ensures Valid() && fresh(Repr() - old(Repr()))
      ensures ModInv(cfg, ModAt(old(State()), Pack(modid, cmdid)))
      ensures State() == TableStep(cfg, now, old(State()), Pack(modid, cmdid), RouteUpdate(hosts))
    {
      hide LB.Valid, LB.State, Inv, Pack, Refreshed;
      var key := Pack(modid, cmdid);
      if key in routeMap {
        EntryIsKnown(key);
        RefreshRequest(cfg, now, routeMap[key].State(), hosts);
        hide ModStep;
        if |hosts| == 0 {
          routeMap := routeMap - {key};
        } else {
          routeMap[key].Update(hosts, now);
        }
        OneEntryChanged(key);
      }
    }

    /** After a reconnect: no pull is under way any more. */
    method ClearPulling()
      requires Valid()
      modifies Repr()
      ensures Valid() && Repr() == old(Repr())
      ensures State() == Cleared(old(State()), old(State()).Keys)
    {
      hide RouteLB.Valid, RouteLB.State, LB.Valid, LB.State, HostsOf, Cleared, NotPulling;
      ghost var t := State();
      var left := routeMap.Keys;
      NoneCleared();
      while left != {}
        invariant Valid() && Repr() == old(Repr()) && routeMap == old(routeMap)
        invariant left <= routeMap.Keys && State() == Cleared(t, t.Keys - left)
        decreases left
      {
        var key :| key in left;
        if routeMap[key].status == IsPulling { ClearOne(key); } else { AlreadyNew(key); }
        OneMoreCleared(t, left, key);
        left := left - {key};
      }
      assert t.Keys - {} == t.Keys;
    }

    lemma NoneCleared()
      ensures State().Keys == routeMap.Keys
      ensures State() == Cleared(State(), State().Keys - routeMap.Keys)
    {
      assert State().Keys == routeMap.Keys;
    }

    lemma AlreadyNew(key: Uint64)
      requires Valid() && key in routeMap && routeMap[key].status != IsPulling
      ensures key in State() && State()[key].status == IsNew
    {
      EntryIsKnown(key);
    }

    method ClearOne(key: Uint64)
      requires Valid() && key in routeMap
      modifies routeMap[key]
      ensures Valid() && Repr() == old(Repr())
      ensures key in old(State())
      ensures State() == old(State())[key := NotPulling(old(State())[key])]
    {
      hide LB.Valid, LB.State, Inv, RouteLB.State, Pack, ModInv;
      EntryIsKnown(key);
      routeMap[key].ClearStatus();
      OneEntryChanged(key);
    }
  }
}
