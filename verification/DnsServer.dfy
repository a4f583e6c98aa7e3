/** The DNS server's handlers over the shared route table and subscription list:
    answering a request, closing a connection, pushing changes, and one round of
    the loader. The contract of each says which steps of `DnsMachine` it stands for:
    a state that shows the objects before the call shows them again behind those steps. */
module DnsServer {
  import opened Wrappers
  import opened Words
  import opened Sequences
  import opened RouteData
  import opened Subscriptions
  import opened DnsMachine
  import opened DnsRuns

  ghost predicate ShowsList(s: Dns, subs: SubscribeList)
    reads subs
  {
    s.book == subs.bookl && s.waiting == subs.pushl
  }

  /** The state of the machine shows both buffers and both lists. */
  ghost predicate Shows(s: Dns, route: Route, subs: SubscribeList)
    reads route, route.data, route.tmpData, subs
  {
    s.data == route.data.content && s.spare == route.tmpData.content && ShowsList(s, subs)
  }

  ghost predicate ShowsConn(s: Dns, com: Connection)
    reads com
  {
    com.fd in s.conns && s.conns[com.fd].interest == com.interest
  }

  /** A reply that names the hosts behind the given keys, each once, in any order. */
  ghost predicate NamesKeys(reply: seq<Addr>, keys: seq<Uint64>, hosts: set<Uint64>) {
    && NoDuplicates(keys) && (forall k :: k in keys <==> k in hosts)
    && |reply| == |keys| && (forall i :: 0 <= i < |keys| ==> reply[i] == Decoded(keys[i]))
  }

  ghost predicate Names(reply: seq<Addr>, hosts: set<Uint64>) {
    exists keys :: NamesKeys(reply, keys, hosts)
  }

  /** A connection and the modules it has asked for. */
  class Connection {
    const fd: Int32
    var interest: set<Uint64>

    constructor (fd: Int32)
      ensures this.fd == fd && interest == {}
    {
      this.fd := fd;
      interest := {};
    }
  }

  /** The addresses behind a set of host keys. */
  method Decode(hosts: set<Uint64>) returns (reply: seq<Addr>)
    ensures Names(reply, hosts)
  {
    reply := [];
    var left := hosts;
    ghost var keys := [];
    while left != {}
      invariant left <= hosts && NoDuplicates(keys) && |reply| == |keys|
      invariant forall k :: k in keys <==> k in hosts && k !in left
      invariant forall i :: 0 <= i < |keys| ==> reply[i] == Decoded(keys[i])
      decreases left
    {
      var key :| key in left;
      reply := reply + [Addr(ToInt32(High(key)), Low(key))];
      keys := keys + [key];
      left := left - {key};
    }
    assert NamesKeys(reply, keys, hosts);
  }

  /** A request for a module: subscribes the connection once, and answers. */
  method GetRoute(com: Connection, subs: SubscribeList, route: Route, modid: Int32, cmdid: Int32)
    returns (reply: seq<Addr>)
    modifies com, subs`bookl
    ensures com.interest == old(com.interest) + {Pack(modid, cmdid)}
    ensures subs.bookl == if Pack(modid, cmdid) in old(com.interest) then old(subs.bookl)
                          else Subscribed(old(subs.bookl), Pack(modid, cmdid), com.fd)
    ensures Names(reply, HostsIn(route.data.content, Pack(modid, cmdid)))
    ensures forall s: Dns :: old(Shows(s, route, subs) && ShowsConn(s, com)) ==>
              var t := RunFrom(s, [Request(com.fd, Pack(modid, cmdid))]);
              Shows(t, route, subs) && ShowsConn(t, com) && Names(reply, LookupIn(t, Pack(modid, cmdid)))
  {
    hide Pack, Names;
    var key := Pack(modid, cmdid);
    forall s: Dns | old(ShowsConn(s, com)) ensures RunFrom(s, [Request(com.fd, key)]) == Next(s, Request(com.fd, key)) {
      RunFromOne(s, Request(com.fd, key));
    }
    if key !in com.interest {
      com.interest := com.interest + {key};
      subs.Subscribe(key, com.fd);
    }
    var hosts := route.GetHosts(modid, cmdid);
    reply := Decode(hosts);
  }

  /** A connection closes: it is taken out of the book wherever it was interested. */
  method ClearSubscribe(com: Connection, subs: SubscribeList) returns (ghost mods: seq<Uint64>)
    requires NoEmptyEntries(subs.bookl)
    modifies subs`bookl
    ensures NoEmptyEntries(subs.bookl)
    ensures forall mod, fd :: fd in Subscribers(subs.bookl, mod)
                         <==> fd in Subscribers(old(subs.bookl), mod) && !(fd == com.fd && mod in com.interest)
    ensures NoDuplicates(mods) && forall m :: m in mods <==> m in com.interest
    ensures forall s: Dns :: old(ShowsList(s, subs) && ShowsConn(s, com)) ==>
              ShowsList(RunFrom(s, UnsubscribeSteps(com.fd, mods) + [DnsMachine.Disconnect(com.fd)]), subs)
  {
    mods := [];
    var left := com.interest;
    while left != {}
      invariant NoDuplicates(mods) && forall m :: m in mods <==> m in com.interest && m !in left
      invariant subs.pushl == old(subs.pushl) && subs.bookl == UnsubscribedAll(old(subs.bookl), com.fd, mods)
      invariant left <= com.interest && NoEmptyEntries(subs.bookl)
      invariant forall mod, fd :: fd in Subscribers(subs.bookl, mod)
                  <==> fd in Subscribers(old(subs.bookl), mod) && !(fd == com.fd && mod in com.interest - left)
      decreases left
    {
      var mod :| mod in left;
      ghost var b := subs.bookl;
      subs.Unsubscribe(mod, com.fd);
      UnsubscribedAllExtended(old(subs.bookl), com.fd, mods, mod);
      mods := mods + [mod];
      left := left - {mod};
      forall m, fd
        ensures fd in Subscribers(subs.bookl, m) <==> fd in Subscribers(b, m) && !(fd == com.fd && m == mod)
        ensures NoEmptyEntries(subs.bookl)
      {
        SubscribedExactly(b, mod, com.fd, m, fd);
      }
    }
    forall s: Dns | old(ShowsList(s, subs) && ShowsConn(s, com))
      ensures ShowsList(RunFrom(s, UnsubscribeSteps(com.fd, mods) + [DnsMachine.Disconnect(com.fd)]), subs)
    {
      CloseRun(s, com.fd, mods);
    }
  }

  /** A route sent on without being asked for. */
  datatype PushMsg = PushMsg(fd: Int32, modid: Int32, cmdid: Int32, hosts: seq<Addr>)

  /** The message for one waiting change: the module key is decoded, and the hosts
      are those of the decoded module. */
  ghost predicate Announces(m: PushMsg, fd: Int32, mod: Uint64, g: Grouping) {
    var a := Decoded(mod);
    m.fd == fd && m.modid == a.ip && m.cmdid == a.port && Names(m.hosts, HostsIn(g, Pack(m.modid, m.cmdid)))
  }

  /** Messages for exactly the given changes, one for each. */
  ghost predicate AnnouncesAll(sent: seq<PushMsg>, pairs: seq<(Int32, Uint64)>, p: PushList, g: Grouping) {
    && NoDuplicates(pairs) && |sent| == |pairs|
    && (forall fd: Int32, mod: Uint64 :: (fd, mod) in pairs <==> mod in Waiting(p, fd))
    && (forall i :: 0 <= i < |pairs| ==> Announces(sent[i], pairs[i].0, pairs[i].1, g))
  }

  /** If cmdid is not negative, the announced module is the one that changed. */
  lemma AnnouncedModule(m: PushMsg, fd: Int32, mod: Uint64, g: Grouping)
    requires Announces(m, fd, mod, g)
    ensures m.fd == fd
    ensures Low(mod) >= 0 <==> Pack(m.modid, m.cmdid) == mod
    ensures Low(mod) >= 0 ==> Names(m.hosts, HostsIn(g, mod))
  {
    DecodedKey(mod);
  }

  /** A loop takes what waits for its connections and sends each change once. */
  method PushChange(listening: set<Int32>, subs: SubscribeList, route: Route)
    returns (sent: seq<PushMsg>, ghost pairs: seq<(Int32, Uint64)>)
    modifies subs`pushl
    ensures subs.pushl == Kept(old(subs.pushl), listening)
    ensures AnnouncesAll(sent, pairs, Taken(old(subs.pushl), listening), route.data.content)
    ensures forall s: Dns, loop: nat :: old(Shows(s, route, subs)) && Listening(s, loop) == listening ==>
              var t := RunFrom(s, [Fetch(loop)] + DeliverSteps(pairs));
              Shows(t, route, subs) && t.work == s.work - Elements(pairs)
  {
    var news := subs.FetchPush(listening);
    sent := [];
    ghost var g := route.data.content;
    pairs := [];
    var fds := news.Keys;
    while fds != {}
      invariant subs.pushl == Kept(old(subs.pushl), listening)
      invariant fds <= news.Keys && |sent| == |pairs| && NoDuplicates(pairs)
      invariant forall fd: Int32, mod: Uint64 :: (fd, mod) in pairs <==> fd !in fds && mod in Waiting(news, fd)
      invariant forall i :: 0 <= i < |pairs| ==> Announces(sent[i], pairs[i].0, pairs[i].1, g)
      decreases fds
    {
      var fd :| fd in fds;
      fds := fds - {fd};
      sent, pairs := PushTo(fd, news, fds, sent, pairs, route);
    }
    forall s: Dns, loop: nat | old(Shows(s, route, subs)) && Listening(s, loop) == listening
      ensures RunFrom(s, [Fetch(loop)] + DeliverSteps(pairs))
           == s.(waiting := Kept(s.waiting, listening), work := s.work - Elements(pairs))
    {
      PairsTaken(Taken(s.waiting, listening), pairs);
      PushRun(s, loop, pairs);
    }
  }

  lemma PairsTaken(p: PushList, pairs: seq<(Int32, Uint64)>)
    requires forall fd: Int32, mod: Uint64 :: (fd, mod) in pairs <==> mod in Waiting(p, fd)
    ensures forall x: (Int32, Uint64) :: x in pairs <==> x in PairsOf(p)
  {
    forall x: (Int32, Uint64) ensures x in pairs <==> x in PairsOf(p) {
      var (fd, mod) := x;
      assert (fd, mod) in pairs <==> mod in Waiting(p, fd);
    }
  }

  /** Sends all changes that wait for one connection. */
  method PushTo(fd: Int32, news: PushList, fds: set<Int32>, sent: seq<PushMsg>, ghost pairs: seq<(Int32, Uint64)>,
                route: Route)
    returns (sent': seq<PushMsg>, ghost pairs': seq<(Int32, Uint64)>)
    requires fd in news && fd !in fds && |sent| == |pairs| && NoDuplicates(pairs)
    requires forall f: Int32, mod: Uint64 :: (f, mod) in pairs <==> f !in fds && f != fd && mod in Waiting(news, f)
    requires forall i :: 0 <= i < |pairs| ==> Announces(sent[i], pairs[i].0, pairs[i].1, route.data.content)
    ensures |sent'| == |pairs'| && NoDuplicates(pairs')
    ensures forall f: Int32, mod: Uint64 :: (f, mod) in pairs' <==> f !in fds && mod in Waiting(news, f)
    ensures forall i :: 0 <= i < |pairs'| ==> Announces(sent'[i], pairs'[i].0, pairs'[i].1, route.data.content)
  {
    hide Announces;
    sent', pairs' := sent, pairs;
    var left := news[fd];
    while left != {}
      invariant left <= news[fd] && |sent'| == |pairs'| && NoDuplicates(pairs')
      invariant forall f: Int32, mod: Uint64 :: (f, mod) in pairs' <==>
                  (f, mod) in pairs || (f == fd && mod in news[fd] && mod !in left)
      invariant forall i :: 0 <= i < |pairs'| ==> Announces(sent'[i], pairs'[i].0, pairs'[i].1, route.data.content)
      decreases left
    {
      var mod :| mod in left;
      var m := Answer(fd, mod, route);
      sent', pairs' := sent' + [m], pairs' + [(fd, mod)];
      left := left - {mod};
    }
  }

  method Answer(fd: Int32, mod: Uint64, route: Route) returns (m: PushMsg)
    ensures Announces(m, fd, mod, route.data.content)
  {
    var modid, cmdid := ToInt32(High(mod)), Low(mod);
    var hosts := route.GetHosts(modid, cmdid);
    var reply := Decode(hosts);
    m := PushMsg(fd, modid, cmdid, reply);
  }

  /** A row of the change log. */
  datatype Change = Change(version: int, modid: Int32, cmdid: Int32)

  /** The changes up to a version, in the log's order. */
  function ChangesUpTo(log: seq<Change>, version: int): seq<Uint64> {
    if log == [] then []
    else
      var last := log[|log| - 1];
      ChangesUpTo(log[..|log| - 1], version)
      + if last.version <= version then [Pack(last.modid, last.cmdid)] else []
  }

  lemma {:induction false} ChangesUpToExactly(log: seq<Change>, version: int, key: Uint64)
    ensures key in ChangesUpTo(log, version)
       <==> exists c :: c in log && c.version <= version && Pack(c.modid, c.cmdid) == key
  {
    if log != [] {
      var earlier, last := log[..|log| - 1], log[|log| - 1];
      assert log == earlier + [last];
      hide Pack;
      ChangesUpToExactly(earlier, version, key);
      assert last in log;
    }
  }

  /** The loader thread's own state, and the version it has seen. */
  class Loader {
    const interval: int
    var lstLoadTs: int
    var routeVersion: int

    constructor (interval: int, now: int, version: int)
      ensures this.interval == interval && lstLoadTs == now && routeVersion == version
    {
      this.interval, lstLoadTs, routeVersion := interval, now, version;
    }

    /** Looks for a new version; the query may fail. */
    method LoadVersion(stored: Option<int>) returns (ret: int)
      modifies this`routeVersion
      ensures ret == if stored.None? then -1 else if stored.value == old(routeVersion) then 0 else 1
      ensures routeVersion == if stored.Some? then stored.value else old(routeVersion)
    {
      if stored.None? { return -1; }
      if stored.value == routeVersion { return 0; }
      routeVersion := stored.value;
      ret := 1;
    }

    /** The changes of this version and earlier ones; none if the query fails. */
    method LoadChanges(log: Option<seq<Change>>) returns (changes: seq<Uint64>)
      ensures changes == if log.Some? then ChangesUpTo(log.value, routeVersion) else []
    {
      changes := [];
      if log.None? { return; }
      var rows := log.value;
      for i := 0 to |rows|
        invariant changes == ChangesUpTo(rows[..i], routeVersion)
      {
        assert rows[..i + 1][..i] == rows[..i];
        if rows[i].version <= routeVersion {
          changes := changes + [Pack(rows[i].modid, rows[i].cmdid)];
        }
      }
      assert rows[..|rows|] == rows;
    }

    /** One round: reload on a new version or when the interval is over, swap only a
        complete load, and announce changes only of a new version behind the swap. */
    method Round(stored: Option<int>, query: Option<seq<Row>>, log: Option<seq<Change>>, now: int,
                 route: Route, subs: SubscribeList)
      requires route.Valid()
      modifies this, route, route.data, route.tmpData, subs`pushl
      ensures route.Valid()
      ensures routeVersion == if stored.Some? then stored.value else old(routeVersion)
      ensures var isNew := stored.Some? && stored.value != old(routeVersion);
              var reload := isNew || now - old(lstLoadTs) >= interval;
              var changes := if log.Some? then ChangesUpTo(log.value, routeVersion) else [];
              && lstLoadTs == (if reload && query.Some? then now else old(lstLoadTs))
              && (if reload && query.Some? then
                    && route.data.content == Group(query.value) && route.data == old(route.tmpData)
                    && subs.pushl == if isNew then Pushed(subs.bookl, old(subs.pushl), changes) else old(subs.pushl)
                  else
                    && route.data == old(route.data) && route.data.content == old(route.data.content)
                    && subs.pushl == old(subs.pushl))
              && forall s: Dns :: old(Shows(s, route, subs)) && s.loader.Resting? ==>
                   Shows(RunFrom(s, if reload then ReloadSteps(query, isNew, changes) else []), route, subs)
    {
      hide ChangesUpTo, Pushed, Group, ReloadSteps, RunFrom;
      ghost var from, isNew := lstLoadTs, stored.Some? && stored.value != routeVersion;
      var ret := LoadVersion(stored);
      ghost var changes := if log.Some? then ChangesUpTo(log.value, routeVersion) else [];
      if ret == 1 {
        var loaded := Renew(query, now, route);
        if loaded {
          var loadedChanges := LoadChanges(log);
          subs.Push(loadedChanges);
        }
      } else if now - lstLoadTs >= interval {
        var loaded := Renew(query, now, route);
      }
      forall s: Dns | old(Shows(s, route, subs)) && s.loader.Resting?
        ensures Shows(RunFrom(s, if isNew || now - from >= interval then ReloadSteps(query, isNew, changes) else []),
                      route, subs)
      {
        RunFromNone(s);
        ReloadRun(s, query, isNew, changes);
      }
    }

    /** Reloads, and swaps in what was loaded. */
    method Renew(query: Option<seq<Row>>, now: int, route: Route) returns (loaded: bool)
      requires route.Valid()
      modifies this`lstLoadTs, route, route.tmpData
      ensures route.Valid() && loaded == query.Some?
      ensures lstLoadTs == if loaded then now else old(lstLoadTs)
      ensures if loaded then route.data == old(route.tmpData) && route.tmpData == old(route.data)
              else route.data == old(route.data) && route.tmpData == old(route.tmpData)
      ensures old(route.data).content == old(route.data.content)
      ensures old(route.tmpData).content == if loaded then Group(query.value) else map[]
    {
      hide Group;
      var ret := route.Reload(query);
      loaded := ret == 0;
      if loaded {
        route.Swap();
        lstLoadTs := now;
      }
    }
  }
}
