/** A row's way from the DNS server's table through key, reply and update to the
    agent's hosts, with what becomes of negative ports. */
module TableToAgent {
  import opened Wrappers
  import opened Words
  import opened Hosts
  import opened LoadBalancer
  import opened Agent
  import opened RouteData
  import opened DnsServer

  /** The ip of the row that reaches the agent as (ip, port): a negative port
      borrows one from the ip on its way. */
  function SourceIp(ip: Int32, port: Int32): Int32 {
    if port >= 0 then ip else ToInt32(ip + 1)
  }

  lemma OneLess(x: Int32, y: Int32)
    ensures ToInt32(ToUint32(x - 1)) == y <==> x == ToInt32(y + 1)
  {
  }

  /** Which key is decoded to an address. */
  lemma DecodedFrom(key: Uint64, ip: Int32, port: Int32)
    ensures Decoded(key) == Addr(ip, port) <==> key == Pack(SourceIp(ip, port), port)
  {
    var a := AddrOf(key);
    KeyOfAddrOf(key);
    PackHalves(a.ip, a.port);
    OneLess(a.ip, ip);
    ToInt32OfUint32(a.ip);
    hide Pack, High, Low, ToInt32, ToUint32, AddrOf;
    if key == Pack(SourceIp(ip, port), port) { PackInjective(a.ip, a.port, SourceIp(ip, port), port); }
  }

  /** The keys of a reply, for all ports. */
  lemma NamedHosts(reply: seq<Addr>, hosts: set<Uint64>, ip: Int32, port: Int32)
    requires Names(reply, hosts)
    ensures Pack(ip, port) in KeySet(reply) <==> Pack(SourceIp(ip, port), port) in hosts
  {
    var keys :| NamesKeys(reply, keys, hosts);
    if Pack(ip, port) in KeySet(reply) {
      var i :| 0 <= i < |reply| && Keys(reply)[i] == Pack(ip, port);
      PackInjective(reply[i].ip, reply[i].port, ip, port);
      DecodedFrom(keys[i], ip, port);
      assert keys[i] in keys;
    }
    if Pack(SourceIp(ip, port), port) in hosts {
      var i :| 0 <= i < |keys| && keys[i] == Pack(SourceIp(ip, port), port);
      DecodedFrom(keys[i], ip, port);
      KeySetOf(reply, i);
    }
  }

  /** The agent knows the module and this host of it. */
  predicate HasHost(m: Mod, ip: Int32, port: Int32) {
    m.Some? && Pack(ip, port) in m.value.hosts
  }

  /** What the table and the agent say about a module agree on every address. */
  ghost predicate SameHosts(m: Mod, rows: seq<Row>, modid: Int32, cmdid: Int32) {
    forall ip: Int32, port: Int32 {:trigger HasHost(m, ip, port)} ::
      HasHost(m, ip, port) <==> Row(modid, cmdid, ip, port) in rows
  }

  /** The agent has what the rows become on their way. */
  ghost predicate HostsOfRows(m: Mod, rows: seq<Row>, modid: Int32, cmdid: Int32) {
    forall ip: Int32, port: Int32 {:trigger HasHost(m, ip, port)} ::
      HasHost(m, ip, port) <==> Row(modid, cmdid, SourceIp(ip, port), port) in rows
  }

  predicate NoNegativePorts(rows: seq<Row>, modid: Int32, cmdid: Int32) {
    forall r :: r in rows && r.modid == modid && r.cmdid == cmdid ==> r.port >= 0
  }

  /** From the table to the agent, for all tables and addresses: after the update the
      agent has exactly the hosts of the module's rows, those with a negative port
      under an ip that is one less. */
  lemma RowsReachAgent(cfg: Config, now: int, s: Lb, rows: seq<Row>, modid: Int32, cmdid: Int32, reply: seq<Addr>,
                       ip: Int32, port: Int32)
    requires Inv(cfg, s) && Names(reply, HostsIn(Group(rows), Pack(modid, cmdid)))
    ensures HasHost(ModStep(cfg, now, Some(s), RouteUpdate(reply)), ip, port)
       <==> Row(modid, cmdid, SourceIp(ip, port), port) in rows
  {
    var hosts := HostsIn(Group(rows), Pack(modid, cmdid));
    NamedHosts(reply, hosts, ip, port);
    GroupIsExact(rows, modid, cmdid, SourceIp(ip, port), port);
    hide Group, HostsIn, Names, Pack, KeySet, SourceIp;
    if reply == [] {
      EmptyReply();
    } else {
      StepOnView(cfg, now, s, RouteUpdate(reply));
      KeysOfView(ModStep(cfg, now, Some(s), RouteUpdate(reply)).value);
    }
  }

  lemma EmptyReply()
    ensures KeySet([]) == {}
  {
  }

  lemma KeysOfView(s: Lb)
    ensures ViewOf(s).keys == s.hosts.Keys
  {
  }

  /** The agent has exactly the table's hosts if and only if the module has no
      negative port, for every table with fewer than 2^32 rows. */
  lemma TableReachesAgent(cfg: Config, now: int, s: Lb, rows: seq<Row>, modid: Int32, cmdid: Int32, reply: seq<Addr>)
    requires Inv(cfg, s) && Names(reply, HostsIn(Group(rows), Pack(modid, cmdid)))
    requires |rows| < TWO_TO_THE_32
    ensures SameHosts(ModStep(cfg, now, Some(s), RouteUpdate(reply)), rows, modid, cmdid)
       <==> NoNegativePorts(rows, modid, cmdid)
  {
    hide ModStep, HasHost, Names, Group, HostsIn, Pack, Inv;
    var m := ModStep(cfg, now, Some(s), RouteUpdate(reply));
    forall ip: Int32, port: Int32
      ensures HasHost(m, ip, port) <==> Row(modid, cmdid, SourceIp(ip, port), port) in rows
    {
      RowsReachAgent(cfg, now, s, rows, modid, cmdid, reply, ip, port);
    }
    SameHostsIfUnshifted(m, rows, modid, cmdid);
  }

  lemma SameHostsIfUnshifted(m: Mod, rows: seq<Row>, modid: Int32, cmdid: Int32)
    requires |rows| < TWO_TO_THE_32
    requires HostsOfRows(m, rows, modid, cmdid)
    ensures SameHosts(m, rows, modid, cmdid) <==> NoNegativePorts(rows, modid, cmdid)
  {
    hide HasHost;
    if NoNegativePorts(rows, modid, cmdid) {
      forall ip: Int32, port: Int32
        ensures HasHost(m, ip, port) <==> Row(modid, cmdid, ip, port) in rows
      {
        if port < 0 {
          NoSuchRow(rows, modid, cmdid, ip, port);
          NoSuchRow(rows, modid, cmdid, SourceIp(ip, port), port);
        }
      }
    } else if SameHosts(m, rows, modid, cmdid) {
      var r :| r in rows && r.modid == modid && r.cmdid == cmdid && r.port < 0;
      forall i: nat | Shifted(r, i) in rows ensures Shifted(r, i + 1) in rows {
        ShiftedOnce(r, i + 1);
        NextRow(m, rows, modid, cmdid, Shifted(r, i));
      }
      assert Shifted(r, 0) == r;
      ClosedIsLarge(rows, r);
    }
  }

  lemma NextRow(m: Mod, rows: seq<Row>, modid: Int32, cmdid: Int32, r: Row)
    requires HostsOfRows(m, rows, modid, cmdid) && SameHosts(m, rows, modid, cmdid)
    requires r in rows && r.modid == modid && r.cmdid == cmdid && r.port < 0
    ensures Shifted(r, 1) in rows
  {
    hide HasHost;
    assert HasHost(m, r.ip, r.port);
  }

  lemma NoSuchRow(rows: seq<Row>, modid: Int32, cmdid: Int32, ip: Int32, port: Int32)
    requires NoNegativePorts(rows, modid, cmdid) && port < 0
    ensures Row(modid, cmdid, ip, port) !in rows
  {
  }

  /** The same row with an ip that is i more. */
  function Shifted(r: Row, i: nat): Row {
    r.(ip := ToInt32(r.ip + i))
  }

  function Shifts(r: Row, n: nat): set<Row> {
    set i | 0 <= i < n :: Shifted(r, i)
  }

  lemma ShiftsDiffer(r: Row, i: nat, j: nat)
    requires i < j < TWO_TO_THE_32
    ensures Shifted(r, i) != Shifted(r, j)
  {
  }

  lemma {:induction false} ShiftsAreMany(r: Row, n: nat)
    requires n <= TWO_TO_THE_32
    ensures |Shifts(r, n)| == n
  {
    if n > 0 {
      ShiftsAreMany(r, n - 1);
      forall i | 0 <= i < n - 1 ensures Shifted(r, i) != Shifted(r, n - 1) { ShiftsDiffer(r, i, n - 1); }
      hide Shifted;
      assert Shifts(r, n) == Shifts(r, n - 1) + {Shifted(r, n - 1)};
    }
  }

  lemma ShiftedOnce(r: Row, i: nat)
    requires i > 0
    ensures Shifted(Shifted(r, i - 1), 1) == Shifted(r, i)
  {
  }

  /** Counting up the ip never leaves the table. */
  ghost predicate ClosedFrom(rows: seq<Row>, r: Row) {
    r in rows && forall i: nat :: Shifted(r, i) in rows ==> Shifted(r, i + 1) in rows
  }

  lemma {:induction false} ShiftsInTable(rows: seq<Row>, r: Row, i: nat)
    requires ClosedFrom(rows, r)
    ensures Shifted(r, i) in rows
  {
    if i > 0 {
      hide Shifted;
      ShiftsInTable(rows, r, i - 1);
      assert Shifted(r, i - 1 + 1) in rows;
    }
  }

  lemma {:induction false} FewerElements<T>(s: seq<T>, all: set<T>)
    requires forall x :: x in all ==> x in s
    ensures |all| <= |s|
  {
    if s == [] {
      assert all == {};
    } else {
      FewerElements(s[1..], all - {s[0]});
      assert all <= (all - {s[0]}) + {s[0]};
    }
  }

  /** So the table has a row for every ip. */
  lemma ClosedIsLarge(rows: seq<Row>, r: Row)
    requires ClosedFrom(rows, r)
    ensures |rows| >= TWO_TO_THE_32
  {
    hide Shifted, ClosedFrom;
    ShiftsAreMany(r, TWO_TO_THE_32);
    forall x | x in Shifts(r, TWO_TO_THE_32) ensures x in rows {
      var i :| 0 <= i < TWO_TO_THE_32 && x == Shifted(r, i);
      ShiftsInTable(rows, r, i);
    }
    FewerElements(rows, Shifts(r, TWO_TO_THE_32));
  }

  /** The smallest table that does not reach the agent as it is. */
  lemma NegativePortIsShifted(cfg: Config, now: int, s: Lb, modid: Int32, cmdid: Int32, ip: Int32, port: Int32,
                              reply: seq<Addr>)
    requires Inv(cfg, s) && port < 0
    requires Names(reply, HostsIn(Group([Row(modid, cmdid, ip, port)]), Pack(modid, cmdid)))
    ensures var m := ModStep(cfg, now, Some(s), RouteUpdate(reply));
            !HasHost(m, ip, port) && HasHost(m, ToInt32(ip - 1), port)
  {
    hide ModStep, HasHost, Names, Group, HostsIn, Pack, Inv;
    RowsReachAgent(cfg, now, s, [Row(modid, cmdid, ip, port)], modid, cmdid, reply, ip, port);
    RowsReachAgent(cfg, now, s, [Row(modid, cmdid, ip, port)], modid, cmdid, reply, ToInt32(ip - 1), port);
  }
}
