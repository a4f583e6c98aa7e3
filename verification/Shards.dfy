/** The agent's three tables. A module belongs to the table its ids select; the
    client picks the agent's port, and the connection to the DNS server the table
    to update, by the same rule. */
module Shards {
  import opened Wrappers
  import opened Words
  import opened Sequences
  import opened Hosts
  import opened Agent
  import opened RouteTable
  import opened AgentRuns
  import opened RouteText
  import opened Persist

  const SHARDS: nat := 3

  datatype Module = Module(modid: Int32, cmdid: Int32)

  /** Ids whose sum is negative would select no table. */
  type ModuleId = m: Module | m.modid + m.cmdid >= 0 witness Module(0, 0)

  function ShardOf(m: ModuleId): (i: nat)
    ensures i < SHARDS
  {
    (m.modid + m.cmdid) % SHARDS
  }

  function KeyOf(m: ModuleId): Uint64 {
    Pack(m.modid, m.cmdid)
  }

  /** The table that a key's module selects. */
  function Home(key: Uint64): nat {
    var a := AddrOf(key);
    (a.ip + a.port) % SHARDS
  }

  lemma HomeOfModule(m: ModuleId)
    ensures Home(KeyOf(m)) == ShardOf(m)
  {
    AddrOfKey(Addr(m.modid, m.cmdid));
  }

  /** A request or a route for a module, or a new connection to the DNS server. */
  datatype AgentEvent = AtModule(now: int, m: ModuleId, op: ModOp) | Connected(now: int)

  function AsTableEvent(e: AgentEvent): TableEvent {
    match e
    case AtModule(now, m, op) => ForModule(now, KeyOf(m), op)
    case Connected(now) => Reconnected(now)
  }

  /** The event reaches the table with this number. */
  predicate Reaches(e: AgentEvent, shard: nat) {
    e.AtModule? ==> ShardOf(e.m) == shard
  }

  /** What one of the three tables sees of a run. */
  function EventsAt(run: seq<AgentEvent>, shard: nat): seq<TableEvent> {
    if run == [] then []
    else
      var last := run[|run| - 1];
      EventsAt(run[..|run| - 1], shard) + if Reaches(last, shard) then [AsTableEvent(last)] else []
  }

  /** The run as one undivided table would see it. */
  function AllEvents(run: seq<AgentEvent>): seq<TableEvent> {
    if run == [] then [] else AllEvents(run[..|run| - 1]) + [AsTableEvent(run[|run| - 1])]
  }

  function ShardAfter(cfg: Config, run: seq<AgentEvent>, shard: nat): Table {
    TableRun(cfg, EventsAt(run, shard))
  }

  lemma EventsOfExtended(run: seq<TableEvent>, e: TableEvent, key: Uint64)
    ensures EventsOf(run + [e], key)
         == EventsOf(run, key) + EventsOf([e], key)
  {
    assert (run + [e])[..|run|] == run;
    assert [e][..0] == [];
  }

  lemma EventOfModule(e: AgentEvent, shard: nat, key: Uint64)
    ensures Home(key) == shard && !Reaches(e, shard) ==> EventsOf([AsTableEvent(e)], key) == []
    ensures Home(key) != shard && Reaches(e, shard) ==>
              OnlyReconnects(EventsOf([AsTableEvent(e)], key))
  {
    assert [AsTableEvent(e)][..0] == [];
    if e.AtModule? { HomeOfModule(e.m); }
  }

  ghost predicate OnlyReconnects(run: seq<Event>) {
    forall i :: 0 <= i < |run| ==> run[i].op == Disconnect
  }

  /** A module's own table sees all of the module's events, the others only the reconnects. */
  lemma {:induction false} EventsAtHome(run: seq<AgentEvent>, shard: nat, key: Uint64)
    ensures Home(key) == shard ==> EventsOf(EventsAt(run, shard), key) == EventsOf(AllEvents(run), key)
    ensures Home(key) != shard ==> OnlyReconnects(EventsOf(EventsAt(run, shard), key))
  {
    if run != [] {
      hide Home, Reaches, AsTableEvent, EventsOf;
      var earlier, last := run[..|run| - 1], run[|run| - 1];
      var seen, e := EventsAt(earlier, shard), AsTableEvent(last);
      EventsAtHome(earlier, shard, key);
      EventOfModule(last, shard, key);
      EventsOfExtended(AllEvents(earlier), e, key);
      if Reaches(last, shard) {
        EventsOfExtended(seen, e, key);
      } else {
        assert EventsAt(run, shard) == seen;
        assert EventsOf(AllEvents(earlier), key) + [] == EventsOf(AllEvents(earlier), key);
      }
    }
  }

  /** Reconnects alone make no entry. */
  lemma {:induction false} ReconnectsMakeNoEntry(cfg: Config, run: seq<Event>)
    requires OnlyReconnects(run)
    ensures ModRun(cfg, None, run) == None
  {
    if run != [] {
      ReconnectsMakeNoEntry(cfg, run[..|run| - 1]);
    }
  }

  /** In every run, each of the three tables holds exactly the entries that one
      undivided table would hold for the modules that select it. */
  lemma ShardIsPartOfWhole(cfg: Config, run: seq<AgentEvent>, shard: nat, key: Uint64)
    ensures ModAt(ShardAfter(cfg, run, shard), key)
         == if Home(key) == shard then ModAt(TableRun(cfg, AllEvents(run)), key) else None
  {
    hide *;
    EventsAtHome(run, shard, key);
    ShardEntry(cfg, run, shard, key);
    ModulesAreIndependent(cfg, AllEvents(run), key);
    if Home(key) != shard { ReconnectsMakeNoEntry(cfg, EventsOf(EventsAt(run, shard), key)); }
  }

  lemma ShardEntry(cfg: Config, run: seq<AgentEvent>, shard: nat, key: Uint64)
    ensures ModAt(ShardAfter(cfg, run, shard), key) == ModRun(cfg, None, EventsOf(EventsAt(run, shard), key))
  {
    ModulesAreIndependent(cfg, EventsAt(run, shard), key);
  }

  /** The division into tables is invisible: together the three hold what one
      table would hold, and no module is in two of them. */
  lemma ShardingIsInvisible(cfg: Config, run: seq<AgentEvent>)
    ensures var t0, t1, t2 := ShardAfter(cfg, run, 0), ShardAfter(cfg, run, 1), ShardAfter(cfg, run, 2);
            && t0.Keys !! t1.Keys && t0.Keys !! t2.Keys && t1.Keys !! t2.Keys
            && t0 + t1 + t2 == TableRun(cfg, AllEvents(run))
  {
    hide *;
    forall key: Uint64 { EntryInOneShard(cfg, run, key); }
  }

  lemma EntryInOneShard(cfg: Config, run: seq<AgentEvent>, key: Uint64)
    ensures var t0, t1, t2 := ShardAfter(cfg, run, 0), ShardAfter(cfg, run, 1), ShardAfter(cfg, run, 2);
            var whole := TableRun(cfg, AllEvents(run));
            && (key in t0 ==> key !in t1 && key !in t2) && (key in t1 ==> key !in t2)
            && (key in t0 + t1 + t2 <==> key in whole)
            && (key in whole ==> (t0 + t1 + t2)[key] == whole[key])
  {
    hide ShardAfter, TableRun, Home;
    ShardIsPartOfWhole(cfg, run, 0, key);
    ShardIsPartOfWhole(cfg, run, 1, key);
    ShardIsPartOfWhole(cfg, run, 2, key);
    HomeIsOneOfThree(key);
  }

  lemma HomeIsOneOfThree(key: Uint64)
    ensures Home(key) == 0 || Home(key) == 1 || Home(key) == 2
  {
  }

  /** Three histories, one for each table: the tables are saved at different moments. */
  function HistoryOf(i: nat, r0: seq<AgentEvent>, r1: seq<AgentEvent>, r2: seq<AgentEvent>): seq<AgentEvent> {
    if i == 0 then r0 else if i == 1 then r1 else r2
  }

  lemma KeysAtHome(cfg: Config, run: seq<AgentEvent>, shard: nat, key: Uint64)
    ensures key in ShardAfter(cfg, run, shard) ==> Home(key) == shard
  {
    ShardIsPartOfWhole(cfg, run, shard, key);
  }

  /** Tables of different numbers have no module in common, whenever they are looked at. */
  lemma ShardsAreApart(cfg: Config, run: seq<AgentEvent>, i: nat, run': seq<AgentEvent>, j: nat)
    requires i != j
    ensures ShardAfter(cfg, run, i).Keys !! ShardAfter(cfg, run', j).Keys
  {
    hide ShardAfter, Home;
    forall key: Uint64
      ensures !(key in ShardAfter(cfg, run, i) && key in ShardAfter(cfg, run', j))
    {
      KeysAtHome(cfg, run, i, key);
      KeysAtHome(cfg, run', j, key);
    }
  }

  /** A module's entry among three tables looked at after different histories is that
      of one undivided table after the history of the module's own. */
  lemma EntryOfThree(cfg: Config, r0: seq<AgentEvent>, r1: seq<AgentEvent>, r2: seq<AgentEvent>, key: Uint64)
    ensures ModAt(ShardAfter(cfg, r0, 0) + ShardAfter(cfg, r1, 1) + ShardAfter(cfg, r2, 2), key)
         == ModAt(TableRun(cfg, AllEvents(HistoryOf(Home(key), r0, r1, r2))), key)
  {
    hide ShardAfter, TableRun, Home;
    HomeIsOneOfThree(key);
    ShardIsPartOfWhole(cfg, r0, 0, key);
    ShardIsPartOfWhole(cfg, r1, 1, key);
    ShardIsPartOfWhole(cfg, r2, 2, key);
  }

  /** Backup and recovery: whatever had happened when each of the three tables was
      saved, the files bring the client, for every module, each host exactly once
      that the module had when its own table was saved. */
  lemma BackupBringsEveryHost(cfg: Config, r0: seq<AgentEvent>, r1: seq<AgentEvent>, r2: seq<AgentEvent>,
                              e0: seq<Entry>, e1: seq<Entry>, e2: seq<Entry>, files: (Backup, Backup, Backup),
                              modid: Int32, cmdid: Int32)
    requires Saves(e0, ShardAfter(cfg, r0, 0)) && Holds(files.0, e0)
    requires Saves(e1, ShardAfter(cfg, r1, 1)) && Holds(files.1, e1)
    requires Saves(e2, ShardAfter(cfg, r2, 2)) && Holds(files.2, e2)
    ensures ReadRoutes(files).Some?
    ensures var key := Pack(modid, cmdid);
            var saved := TableRun(cfg, AllEvents(HistoryOf(Home(key), r0, r1, r2)));
            var route := RouteOf(ReadRoutes(files).value, key);
            && NoDuplicates(route)
            && (forall a :: a in route <==> key in saved && a.Key() in saved[key].hosts)
            && (key in ReadRoutes(files).value <==> route != [])
  {
    hide *;
    ShardsAreApart(cfg, r0, 0, r1, 1);
    ShardsAreApart(cfg, r0, 0, r2, 2);
    ShardsAreApart(cfg, r1, 1, r2, 2);
    var t0, t1, t2 := ShardAfter(cfg, r0, 0), ShardAfter(cfg, r1, 1), ShardAfter(cfg, r2, 2);
    ThreeFilesRoundTrip(e0, e1, e2, t0, t1, t2, files, modid, cmdid);
    EntryOfThree(cfg, r0, r1, r2, Pack(modid, cmdid));
    SameEntry(t0 + t1 + t2, TableRun(cfg, AllEvents(HistoryOf(Home(Pack(modid, cmdid)), r0, r1, r2))), Pack(modid, cmdid));
  }

  lemma SameEntry(t: Table, u: Table, key: Uint64)
    requires ModAt(t, key) == ModAt(u, key)
    ensures key in t <==> key in u
    ensures key in t ==> t[key] == u[key]
  {
  }

  // ---------- The connection to the DNS server ----------

  /** The three tables, each valid and made of objects of its own. */
  ghost predicate ValidShards(routeLB: seq<RouteLB>)
    reads *
  {
    && |routeLB| == SHARDS
    && (forall i :: 0 <= i < SHARDS ==> routeLB[i].Valid())
    && (forall i, j :: 0 <= i < j < SHARDS ==> routeLB[i].Repr() !! routeLB[j].Repr())
  }

  /** A table whose objects are apart from all that changed is what it was. */
  twostate lemma Untouched(t: RouteLB)
    requires old(t.Valid()) && forall o :: o in old(t.Repr()) ==> unchanged(o)
    ensures t.Valid() && t.State() == old(t.State()) && t.Repr() == old(t.Repr())
  {
    assert t in old(t.Repr());
    forall k | k in t.routeMap
      ensures unchanged(t.routeMap[k]) && unchanged(t.routeMap[k].hostMap.Values)
    {
      assert t.routeMap[k] in old(t.Repr());
      forall h | h in t.routeMap[k].hostMap.Values ensures unchanged(h) { assert h in old(t.Repr()); }
    }
    t.Untouched();
  }

  lemma ObjectsExist(t: RouteLB)
    ensures forall o :: o in t.Repr() ==> allocated(o)
  {
  }

  /** A route from the DNS server goes to its module's table; the others are untouched. */
  method RecvRoute(routeLB: seq<RouteLB>, m: ModuleId, hosts: seq<Addr>, now: int)
    requires ValidShards(routeLB)
    modifies routeLB[ShardOf(m)].Repr()
    ensures ValidShards(routeLB)
    ensures ShardOf(m) == (m.modid + m.cmdid) % 3
    ensures forall i :: 0 <= i < SHARDS && i != ShardOf(m) ==> routeLB[i].State() == old(routeLB[i].State())
    ensures ModInv(routeLB[ShardOf(m)].cfg, ModAt(old(routeLB[ShardOf(m)].State()), KeyOf(m)))
    ensures routeLB[ShardOf(m)].State()
         == TableStep(routeLB[ShardOf(m)].cfg, now, old(routeLB[ShardOf(m)].State()), KeyOf(m), RouteUpdate(hosts))
  {
    hide RouteLB.Valid, RouteLB.State, RouteLB.Repr, TableStep, Pack;
    forall i | 0 <= i < SHARDS { ObjectsExist(routeLB[i]); }
    var index := (m.modid + m.cmdid) % 3;
    routeLB[index].Update(m.modid, m.cmdid, hosts, now);
    forall i | 0 <= i < SHARDS && i != index
      ensures routeLB[i].Valid() && routeLB[i].State() == old(routeLB[i].State())
      ensures routeLB[i].Repr() == old(routeLB[i].Repr())
    {
      assert old(routeLB[i].Repr()) !! old(routeLB[index].Repr());
      Untouched(routeLB[i]);
    }
  }

  /** After a new connection no table waits for a pull of the old one. */
  method WhenConnected(routeLB: seq<RouteLB>)
    requires ValidShards(routeLB)
    modifies set i, o | 0 <= i < |routeLB| && o in routeLB[i].Repr() :: o
    ensures ValidShards(routeLB)
    ensures forall i :: 0 <= i < SHARDS ==>
              routeLB[i].State() == Cleared(old(routeLB[i].State()), old(routeLB[i].State()).Keys)
  {
    hide RouteLB.Valid, RouteLB.State, RouteLB.Repr, Cleared;
    for i := 0 to 3
      invariant ValidShards(routeLB)
      invariant forall j :: 0 <= j < SHARDS ==> routeLB[j].Repr() == old(routeLB[j].Repr())
      invariant forall j :: i <= j < SHARDS ==> routeLB[j].State() == old(routeLB[j].State())
      invariant forall j :: 0 <= j < i ==>
                  routeLB[j].State() == Cleared(old(routeLB[j].State()), old(routeLB[j].State()).Keys)
    {
      ClearShard(routeLB, i);
    }
  }

  method ClearShard(routeLB: seq<RouteLB>, index: nat)
    requires ValidShards(routeLB) && index < SHARDS
    modifies routeLB[index].Repr()
    ensures ValidShards(routeLB)
    ensures forall i :: 0 <= i < SHARDS ==> routeLB[i].Repr() == old(routeLB[i].Repr())
    ensures forall i :: 0 <= i < SHARDS && i != index ==> routeLB[i].State() == old(routeLB[i].State())
    ensures routeLB[index].State() == Cleared(old(routeLB[index].State()), old(routeLB[index].State()).Keys)
  {
    hide RouteLB.Valid, RouteLB.State, RouteLB.Repr, Cleared;
    forall i | 0 <= i < SHARDS { ObjectsExist(routeLB[i]); }
    routeLB[index].ClearPulling();
    forall i | 0 <= i < SHARDS && i != index
      ensures routeLB[i].Valid() && routeLB[i].State() == old(routeLB[i].State())
      ensures routeLB[i].Repr() == old(routeLB[i].Repr())
    {
      assert old(routeLB[i].Repr()) !! old(routeLB[index].Repr());
      Untouched(routeLB[i]);
    }
  }
}
