/** The mutable client: cached modules as objects in a map, and the API calls that
    read, refresh and report through them. Each call acts on one module exactly as
    `ClientCache.ClientStep` says and leaves the other modules alone. */
module ElbClient {
  import opened Wrappers
  import opened Words
  import opened Sequences
  import opened LoadBalancer
  import opened Agent
  import opened Balancer
  import opened ClientCache
  import opened Persist

  /** What the client sends without waiting for a reply. */
  datatype ClientMsg =
    | BatchMsg(modid: Int32, cmdid: Int32, results: seq<BatchResult>)
    | CallMsg(modid: Int32, cmdid: Int32, host: Addr, retcode: int, tcost: Option<nat>)

  /** The results of a batch: one per host with a non-zero counter, in any order. */
  ghost predicate Lists(results: seq<BatchResult>, counters: map<Uint64, nat>, keys: seq<Uint64>) {
    && NoDuplicates(keys) && |results| == |keys|
    && (forall k :: k in keys <==> k in counters && counters[k] != 0)
    && (forall i :: 0 <= i < |keys| ==>
          keys[i] in counters && results[i] == BatchResult(Decoded(keys[i]), counters[keys[i]]))
  }

  ghost predicate Carries(results: seq<BatchResult>, counters: map<Uint64, nat>) {
    exists keys :: Lists(results, counters, keys)
  }

  /** The messages of a flush: none for an item without successes, one batch otherwise. */
  ghost predicate IsFlush(msgs: seq<ClientMsg>, modid: Int32, cmdid: Int32, u: CacheItem) {
    if u.succCnt == 0 then msgs == []
    else
      && |msgs| == 1 && msgs[0].BatchMsg? && msgs[0].modid == modid && msgs[0].cmdid == cmdid
      && Carries(msgs[0].results, u.succAccum)
  }

  class CacheUnit {
    const modid: Int32
    const cmdid: Int32
    var overload: bool
    var lstUpdTs: int
    var version: int
    var succCnt: nat
    var nodeList: seq<Addr>
    var succAccum: map<Uint64, nat>

    function Value(): CacheItem
      reads this
    {
      CacheItem(overload, lstUpdTs, version, succCnt, nodeList, succAccum)
    }

    constructor (modid: Int32, cmdid: Int32)
      ensures this.modid == modid && this.cmdid == cmdid
    {
      this.modid, this.cmdid := modid, cmdid;
    }

    /** The next host of the list, which goes to its end. */
    method GetHost() returns (host: Addr)
      requires nodeList != []
      modifies this`nodeList
      ensures host == old(nodeList)[0] && nodeList == Rotated(old(nodeList))
    {
      host := nodeList[0];
      nodeList := nodeList[1..] + [host];
    }

    /** Counts a success of a listed host; others are ignored. */
    method Report(ip: Int32, port: Int32)
      modifies this`succAccum, this`succCnt
      ensures Value() == CountedIn(old(Value()), Pack(ip, port))
    {
      var key := Pack(ip, port);
      if key in succAccum {
        succAccum := succAccum[key := succAccum[key] + 1];
        succCnt := succCnt + 1;
      }
    }

    /** Sends and zeroes all counters, unless the total is zero. */
    method BatchReportRes(outbox: Outbox<ClientMsg>)
      modifies this`succAccum, this`succCnt, outbox
      ensures Value() == Flushed(old(Value()))
      ensures old(outbox.messages) <= outbox.messages
      ensures IsFlush(outbox.messages[|old(outbox.messages)|..], modid, cmdid, old(Value()))
    {
      if succCnt != 0 {
        succCnt := 0;
        var results := DrainCounters();
        outbox.Send(BatchMsg(modid, cmdid, results));
        assert outbox.messages[|old(outbox.messages)|..] == [BatchMsg(modid, cmdid, results)];
      }
    }

    /** Walks over the counters, collecting and zeroing them. */
    method DrainCounters() returns (results: seq<BatchResult>)
      modifies this`succAccum
      ensures succAccum == ZeroCounters(old(succAccum).Keys)
      ensures Carries(results, old(succAccum))
    {
      results := [];
      ghost var counters, keys := succAccum, [];
      var left := succAccum.Keys;
      while left != {}
        invariant left <= counters.Keys
        invariant succAccum == map k | k in counters :: if k in left then counters[k] else 0
        invariant NoDuplicates(keys) && |results| == |keys|
        invariant forall k :: k in keys <==> k in counters && k !in left && counters[k] != 0
        invariant forall i :: 0 <= i < |keys| ==>
                    keys[i] in counters && results[i] == BatchResult(Decoded(keys[i]), counters[keys[i]])
        decreases left
      {
        var key :| key in left;
        if succAccum[key] != 0 {
          results := results + [BatchResult(Addr(ToInt32(High(key)), Low(key)), succAccum[key])];
          keys := keys + [key];
        }
        succAccum := succAccum[key := 0];
        left := left - {key};
      }
      assert Lists(results, counters, keys);
    }
  }

  lemma NoCounters(route: seq<Addr>)
    ensures route[..0] == [] && ZeroCounters(KeySet(route[..0])) == map[]
  {
  }

  lemma OneCounterMore(route: seq<Addr>, i: nat)
    requires i < |route|
    ensures route[..i + 1] == route[..i] + [route[i]]
    ensures ZeroCounters(KeySet(route[..i + 1])) == ZeroCounters(KeySet(route[..i]))[route[i].Key() := 0]
  {
    hide KeySet;
    KeysExtended(route, i);
  }

  type Items = map<Uint64, CacheItem>

  function ItemAt(t: Items, key: Uint64): Cached {
    if key in t then Some(t[key]) else None
  }

  function WithItem(t: Items, key: Uint64, c: Cached): Items {
    if c.Some? then t[key := c.value] else t - {key}
  }

  lemma ItemOfWith(t: Items, key: Uint64, c: Cached)
    ensures ItemAt(WithItem(t, key, c), key) == c
  {
  }

  lemma WithItemTwice(t: Items, key: Uint64, c: Cached, d: Cached)
    ensures WithItem(WithItem(t, key, c), key, d) == WithItem(t, key, d)
  {
  }

  lemma FlushesGet(c: Cached, now: int, f: Fetch)
    ensures c.None? ==> !Flushes(c, GetCall(now, f))
  {
  }

  lemma FlushesKnown(u: CacheItem, now: int, f: Fetch)
    ensures Flushes(Some(u), GetCall(now, f)) <==> now - u.lstUpdTs >= 2
    ensures Expired(now, u) <==> now - u.lstUpdTs >= 2
  {
  }

  lemma WithSameItem(t: Items, key: Uint64)
    requires ItemAt(t, key).Some?
    ensures WithItem(t, key, ItemAt(t, key)) == t
  {
  }

  lemma FlushedIn(t: Items, key: Uint64, u: CacheItem)
    ensures t[key := Flushed(u)] == WithItem(t, key, Some(Flushed(u)))
    ensures ItemAt(t[key := Flushed(u)], key) == Some(Flushed(u))
  {
  }

  lemma FetchOutcome(c: Cached, ts: int, f: Fetch)
    ensures c.None? && f.Failed? ==> AfterFetch(c, ts, f).None?
    ensures c.None? ==> Refetched(None, ts, f) == AfterFetch(None, ts, f)
  {
  }

  lemma UnitFields(item: CacheUnit)
    ensures item.Value() == CacheItem(item.overload, item.lstUpdTs, item.version, item.succCnt,
                                      item.nodeList, item.succAccum)
  {
  }

  /** What serving an item does, and that it leaves an overloaded one alone. */
  lemma ServedItem(t: Items, key: Uint64)
    requires CachedInv(ItemAt(t, key)) && ItemAt(t, key).Some?
    ensures var u := ItemAt(t, key).value;
            && u.nodeList != [] && CachedInv(Some(Served(u)))
            && ServeReply(u) == (if u.overload then FromAgent else FromCache(u.nodeList[0]))
            && Served(u) == (if u.overload then u else u.(nodeList := Rotated(u.nodeList)))
            && (u.overload ==> WithItem(t, key, Some(Served(u))) == t)
  {
    RotatedKeepsInv(ItemAt(t, key).value);
  }

  function FileResult(f: FileReply): HostResult {
    match f
    case Endless => NeverReturns
    case Found(None) => Returned(NOT_EXIST, None)
    case Found(Some(host)) => Returned(0, Some(host))
  }

  lemma FileResults(f: FileReply)
    ensures FileResult(Endless) == NeverReturns && FileResult(Found(None)) == Returned(NOT_EXIST, None)
    ensures f.Found? && f.host.Some? ==> FileResult(f) == Returned(0, f.host)
  {
  }

  lemma CompletedCases(r: ApiReply, x: Exchange)
    ensures r.FromCache? ==> Completed(r, x) == Returned(0, Some(r.host))
    ensures r.Error? ==> Completed(r, x) == Returned(r.code, None)
    ensures r.FromAgent? ==>
              Completed(r, x) == if x.NoReply? then Returned(SYSTEM_ERROR, None)
                                else Returned(x.retcode, if x.retcode == 0 then Some(x.host) else None)
  {
  }

  /** The messages of a report that is not kept in the cache. */
  function CallOf(modid: Int32, cmdid: Int32, host: Addr, retcode: int, tcost: nat): ClientMsg {
    CallMsg(modid, cmdid, host, retcode, if retcode != 0 then Some(tcost) else None)
  }

  /** What a report sends: nothing if the cache takes it, else the call itself,
      behind a flush if it is a failure of a module without overloaded hosts. */
  ghost predicate ReportMessages(sent: seq<ClientMsg>, modid: Int32, cmdid: Int32, c: Cached,
                                 host: Addr, retcode: int, tcost: nat)
  {
    var call := CallOf(modid, cmdid, host, retcode, tcost);
    if c.Some? && !c.value.overload && retcode == 0 then sent == []
    else
      && sent != [] && sent[|sent| - 1] == call
      && if Flushes(c, ReportCall(host, retcode == 0)) then IsFlush(sent[..|sent| - 1], modid, cmdid, c.value)
         else sent[..|sent| - 1] == []
  }

  lemma ReportInSteps(t: Items, key: Uint64, c: Cached, host: Addr, retcode: int)
    requires c == ItemAt(t, key)
    ensures c.None? || c.value.overload ==>
              t == WithItem(t, key, ClientStep(c, ReportCall(host, retcode == 0)))
              && !Flushes(c, ReportCall(host, retcode == 0))
    ensures c.Some? && !c.value.overload && retcode != 0 ==>
              ClientStep(c, ReportCall(host, retcode == 0)) == Some(Flushed(c.value))
              && Flushes(c, ReportCall(host, retcode == 0))
  {
  }

  lemma InvOf(c: Cached)
    requires CachedInv(c) && c.Some?
    ensures ItemInv(c.value)
  {
  }

  lemma CountedItem(u: CacheItem, host: Addr)
    requires !u.overload
    ensures ClientStep(Some(u), ReportCall(host, true)) == Some(CountedIn(u, Pack(host.ip, host.port)))
  {
  }

  lemma NoMessages(modid: Int32, cmdid: Int32, c: Cached, host: Addr, retcode: int, tcost: nat)
    requires c.Some? && !c.value.overload && retcode == 0
    ensures ReportMessages([], modid, cmdid, c, host, retcode, tcost)
  {
  }

  /** Sending the call behind what the flush sent. */
  lemma CallAppended(before: seq<ClientMsg>, mid: seq<ClientMsg>, modid: Int32, cmdid: Int32, c: Cached,
                     host: Addr, retcode: int, tcost: nat)
    requires before <= mid && (c.None? || c.value.overload || retcode != 0)
    requires if Flushes(c, ReportCall(host, retcode == 0)) then IsFlush(mid[|before|..], modid, cmdid, c.value)
             else mid == before
    ensures var call := CallMsg(modid, cmdid, host, retcode, if retcode != 0 then Some(tcost) else None);
            ReportMessages((mid + [call])[|before|..], modid, cmdid, c, host, retcode, tcost)
  {
    hide IsFlush, Flushes;
    var call := CallMsg(modid, cmdid, host, retcode, if retcode != 0 then Some(tcost) else None);
    var sent := (mid + [call])[|before|..];
    assert sent == mid[|before|..] + [call];
    assert sent[..|sent| - 1] == mid[|before|..];
  }

  /** The items with the given ones flushed. */
  function AllClosed(t: Items, done: set<Uint64>): Items {
    map k | k in t :: if k in done then Flushed(t[k]) else t[k]
  }

  /** Messages that are the flushes of distinct items, one after the other. */
  ghost predicate AllFlushed(sent: seq<ClientMsg>, t: Items, order: seq<Uint64>)
    decreases |order|
  {
    if order == [] then sent == []
    else
      var last := order[|order| - 1];
      && last in t && last !in order[..|order| - 1]
      && exists n: nat, modid: Int32, cmdid: Int32 ::
           && n <= |sent| && Pack(modid, cmdid) == last
           && AllFlushed(sent[..n], t, order[..|order| - 1])
           && IsFlush(sent[n..], modid, cmdid, t[last])
  }

  lemma NothingClosed(t: Items)
    ensures AllClosed(t, t.Keys - t.Keys) == t
    ensures AllFlushed([], t, [])
  {
  }

  lemma OneMoreClosed(t: Items, done: set<Uint64>, key: Uint64)
    requires key in t && key !in done
    ensures key in AllClosed(t, done) && AllClosed(t, done)[key] == t[key]
    ensures AllClosed(t, done)[key := Flushed(t[key])] == AllClosed(t, done + {key})
    ensures ItemAt(AllClosed(t, done), key) == Some(t[key])
  {
  }

  lemma OneMoreFlushed(sent: seq<ClientMsg>, more: seq<ClientMsg>, t: Items, order: seq<Uint64>, key: Uint64,
                       modid: Int32, cmdid: Int32)
    requires AllFlushed(sent, t, order) && key in t && key !in order && Pack(modid, cmdid) == key
    requires IsFlush(more, modid, cmdid, t[key])
    ensures AllFlushed(sent + more, t, order + [key])
  {
    var all, n := sent + more, |sent|;
    assert all[..n] == sent && all[n..] == more;
    assert (order + [key])[..|order|] == order;
  }

  class Client {
    const outbox: Outbox<ClientMsg>
    const staticRoute: StaticRoute
    var cache: map<Uint64, CacheUnit>
    var agentOff: bool

    ghost function State(): Items
      reads `cache, cache.Values
    {
      map k | k in cache :: cache[k].Value()
    }

    ghost predicate Valid()
      reads `cache, cache.Values
    {
      && (forall k :: k in cache ==> Pack(cache[k].modid, cache[k].cmdid) == k)
      && (forall k :: k in cache ==> ItemInv(cache[k].Value()))
    }

    constructor (outbox: Outbox<ClientMsg>)
      ensures Valid() && State() == map[] && this.outbox == outbox
      ensures staticRoute.Valid() && staticRoute.route == map[]
    {
      this.outbox := outbox;
      staticRoute := new StaticRoute();
      cache := map[];
    }

    /** Takes the agent's reply into the cache. */
    method GetRoute4Cache(modid: Int32, cmdid: Int32, ts: int, fetch: Fetch) returns (ret: int)
      requires Valid() && Usable(ItemAt(State(), Pack(modid, cmdid)), fetch)
      modifies this`cache, cache.Values
      ensures Valid() <==> !LosesTotal(ItemAt(old(State()), Pack(modid, cmdid)), fetch)
      ensures fresh(cache.Values - old(cache.Values))
      ensures State() == WithItem(old(State()), Pack(modid, cmdid),
                                  AfterFetch(ItemAt(old(State()), Pack(modid, cmdid)), ts, fetch))
      ensures ret == if fetch.Failed? then SYSTEM_ERROR else 0
    {
      ghost var key := Pack(modid, cmdid);
      assert ItemNow(key) == ItemAt(State(), key);
      AfterFetchKeepsInv(ItemNow(key), ts, fetch);
      hide ItemInv, Pack, AfterFetch;
      StoreReply(modid, cmdid, ts, fetch);
      OneItemChanged(key);
      ret := if fetch.Failed? then SYSTEM_ERROR else 0;
    }

    function ItemNow(key: Uint64): Cached
      reads `cache, cache.Values
    {
      if key in cache then Some(cache[key].Value()) else None
    }

    method StoreReply(modid: Int32, cmdid: Int32, ts: int, fetch: Fetch)
      requires forall k :: k in cache ==> Pack(cache[k].modid, cache[k].cmdid) == k
      modifies this`cache, cache.Values
      ensures var key := Pack(modid, cmdid);
              && ItemNow(key) == AfterFetch(old(ItemNow(key)), ts, fetch)
              && (forall k :: k != key ==> (k in cache <==> k in old(cache)))
              && (forall k :: k in cache && k != key ==> cache[k] == old(cache)[k] && unchanged(cache[k]))
              && (key in cache ==> Pack(cache[key].modid, cache[key].cmdid) == key)
              && (key in cache ==> fresh(cache[key]) || (key in old(cache) && cache[key] == old(cache)[key]))
    {
      hide ZeroCounters, KeySet;
      var key := Pack(modid, cmdid);
      hide Pack;
      if fetch.Failed? { return; }
      if fetch.version == -1 {
        cache := cache - {key};
      } else if key !in cache || fetch.version != cache[key].version {
        if key !in cache {
          var item := new CacheUnit(modid, cmdid);
          cache := cache[key := item];
        }
        Replace(cache[key], ts, fetch);
      } else {
        Refresh(cache[key], ts, fetch);
      }
    }

    /** A new version: everything is taken from the reply. */
    method Replace(item: CacheUnit, ts: int, fetch: Fetch)
      requires fetch.Fetched? && fetch.version != -1
      modifies item
      ensures Some(item.Value()) == AfterFetch(None, ts, fetch)
    {
      item.overload := fetch.overload;
      item.version := fetch.version;
      item.succCnt := 0;
      item.lstUpdTs := ts;
      FillRoute(item, fetch.route);
    }

    /** The same version: only the flag, the time and the total. */
    method Refresh(item: CacheUnit, ts: int, fetch: Fetch)
      requires fetch.Fetched? && fetch.version == item.version && fetch.version != -1
      modifies item`overload, item`succCnt, item`lstUpdTs
      ensures Some(item.Value()) == AfterFetch(Some(old(item.Value())), ts, fetch)
    {
      item.overload := fetch.overload;
      item.succCnt := 0;
      item.lstUpdTs := ts;
    }

    twostate lemma ValidFollows(key: Uint64)
      requires old(Valid())
      requires forall k :: k in cache && k != key ==> k in old(cache) && cache[k] == old(cache)[k] && unchanged(cache[k])
      requires key in cache ==> Pack(cache[key].modid, cache[key].cmdid) == key
      ensures Valid() <==> CachedInv(ItemNow(key))
    {
      hide ItemInv, Pack;
    }

    twostate lemma StateFollows(key: Uint64)
      requires forall k :: k != key ==> (k in cache <==> k in old(cache))
      requires forall k :: k in cache && k != key ==> cache[k] == old(cache)[k] && unchanged(cache[k])
      ensures State() == WithItem(old(State()), key, if key in cache then Some(cache[key].Value()) else None)
    {
    }

    /** One item was changed, added or removed; the state follows. */
    twostate lemma OneItemChanged(key: Uint64)
      requires old(Valid())
      requires forall k :: k != key ==> (k in cache <==> k in old(cache))
      requires forall k :: k in cache && k != key ==> cache[k] == old(cache)[k] && unchanged(cache[k])
      requires key in cache ==> Pack(cache[key].modid, cache[key].cmdid) == key
      requires key in cache ==> fresh(cache[key]) || (key in old(cache) && cache[key] == old(cache)[key])
      ensures Valid() <==> CachedInv(ItemNow(key))
      ensures fresh(cache.Values - old(cache.Values))
      ensures State() == WithItem(old(State()), key, if key in cache then Some(cache[key].Value()) else None)
    {
      hide *;
      ValidFollows(key);
      StateFollows(key);
    }

    /** Lists the hosts of a route, each with a zero counter. */
    method FillRoute(item: CacheUnit, route: seq<Addr>)
      modifies item`nodeList, item`succAccum
      ensures item.nodeList == route
      ensures item.succAccum == ZeroCounters(KeySet(route))
    {
      hide *;
      item.nodeList, item.succAccum := [], map[];
      NoCounters(route);
      for i := 0 to |route|
        invariant item.nodeList == route[..i]
        invariant item.succAccum == ZeroCounters(KeySet(route[..i]))
      {
        OneCounterMore(route, i);
        item.nodeList := item.nodeList + [route[i]];
        item.succAccum := item.succAccum[route[i].Key() := 0];
      }
      assert route[..|route|] == route;
    }

    /** Sends the collected successes of one cached module. */
    method FlushModule(key: Uint64)
      requires Valid() && key in cache
      modifies cache[key], outbox
      ensures Valid() && ItemNow(key) == Some(Flushed(old(cache[key].Value()))) && cache[key].succCnt == 0
      ensures State() == old(State())[key := Flushed(old(cache[key].Value()))]
      ensures old(outbox.messages) <= outbox.messages
      ensures IsFlush(outbox.messages[|old(outbox.messages)|..],
                      cache[key].modid, cache[key].cmdid, old(cache[key].Value()))
    {
      FlushedKeepsInv(cache[key].Value());
      hide ItemInv, Pack, Flushed, IsFlush;
      cache[key].BatchReportRes(outbox);
      OneItemChanged(key);
    }

    /** A host for a module: from the backup files if the agent is dead, else from the
        cache, or from the agent if some host of the module is overloaded. `fetch` and
        `exchange` are what becomes of the two exchanges this may need. */
    method ApiGetHost(modid: Int32, cmdid: Int32, now: int, agentDead: bool, files: (Backup, Backup, Backup), pick: nat,
                      fetch: Fetch, exchange: Exchange)
      returns (r: HostResult)
      requires Valid() && staticRoute.Valid() && Usable(ItemAt(State(), Pack(modid, cmdid)), fetch)
      modifies this, cache.Values, outbox, staticRoute
      ensures Valid() && agentOff == agentDead
      ensures r.Returned? ==> staticRoute.Valid()
      ensures old(outbox.messages) <= outbox.messages
      ensures var key, sent := Pack(modid, cmdid), outbox.messages[|old(outbox.messages)|..];
              var c := ItemAt(old(State()), key);
              if agentDead then
                && State() == old(State()) && sent == []
                && var from := if old(staticRoute.route) != map[] then Some(old(staticRoute.route)) else ReadRoutes(files);
                   if from.None? then r == NeverReturns
                   else staticRoute.route == from.value && r == FileResult(AnswerFrom(from.value, key, pick))
              else
                && State() == WithItem(old(State()), key, ClientStep(c, GetCall(now, fetch)))
                && staticRoute.route == map[]
                && r == Completed(GetReply(c, now, fetch), exchange)
                && (if Flushes(c, GetCall(now, fetch)) then IsFlush(sent, modid, cmdid, c.value) else sent == [])
    {
      hide *;
      if agentDead {
        agentOff := true;
        var f := staticRoute.GetHost(modid, cmdid, files, pick);
        FileResults(f);
        match f {
          case Endless => r := NeverReturns;
          case Found(None) => r := Returned(NOT_EXIST, None);
          case Found(Some(host)) => r := Returned(0, Some(host));
        }
        return;
      }
      agentOff := false;
      staticRoute.FreeData();
      var reply := AskCache(modid, cmdid, now, fetch);
      CompletedCases(reply, exchange);
      match reply {
        case Error(code) => r := Returned(code, None);
        case FromCache(host) => r := Returned(0, Some(host));
        case FromAgent =>
          match exchange {
            case NoReply => r := Returned(SYSTEM_ERROR, None);
            case Reply(retcode, host) => r := Returned(retcode, if retcode == 0 then Some(host) else None);
          }
      }
    }

    /** The part of `ApiGetHost` that concerns the cache. */
    method AskCache(modid: Int32, cmdid: Int32, now: int, fetch: Fetch) returns (r: ApiReply)
      requires Valid() && Usable(ItemAt(State(), Pack(modid, cmdid)), fetch)
      modifies this`cache, cache.Values, outbox
      ensures Valid()
      ensures old(outbox.messages) <= outbox.messages
      ensures var key, sent := Pack(modid, cmdid), outbox.messages[|old(outbox.messages)|..];
              var c := ItemAt(old(State()), key);
              && State() == WithItem(old(State()), key, ClientStep(c, GetCall(now, fetch)))
              && r == GetReply(c, now, fetch)
              && (if Flushes(c, GetCall(now, fetch)) then IsFlush(sent, modid, cmdid, c.value) else sent == [])
    {
      hide *;
      ghost var key := Pack(modid, cmdid);
      ItemFacts(key);
      FlushesGet(ItemAt(State(), key), now, fetch);
      if Pack(modid, cmdid) !in cache {
        r := FirstRequest(modid, cmdid, now, fetch);
      } else {
        r := RepeatedRequest(modid, cmdid, now, fetch);
      }
    }

    lemma ItemFacts(key: Uint64)
      ensures key in cache <==> ItemAt(State(), key).Some?
      ensures ItemAt(State(), key) == ItemNow(key)
      ensures key in cache ==> ItemNow(key) == Some(cache[key].Value())
    {
    }

    method FirstRequest(modid: Int32, cmdid: Int32, now: int, fetch: Fetch) returns (r: ApiReply)
      requires Valid() && Usable(None, fetch) && ItemAt(State(), Pack(modid, cmdid)) == None
      modifies this`cache, cache.Values
      ensures Valid()
      ensures State() == WithItem(old(State()), Pack(modid, cmdid), ClientStep(None, GetCall(now, fetch)))
      ensures r == GetReply(None, now, fetch)
    {
      GetInSteps(None, now, fetch);
      hide *;
      ghost var t := State();
      var ret := GetRoute4Cache(modid, cmdid, now, fetch);
      var key := Pack(modid, cmdid);
      ItemOfWith(t, key, AfterFetch(None, now, fetch));
      ItemFacts(key);
      FetchOutcome(None, now, fetch);
      if ret != 0 { return Error(ret); }
      if key !in cache { return Error(NOT_EXIST); }
      WithItemTwice(t, key, AfterFetch(None, now, fetch), ClientStep(None, GetCall(now, fetch)));
      r := Serve(key);
    }

    /** A host of a cached module, unless one of its hosts is overloaded. */
    method Serve(key: Uint64) returns (r: ApiReply)
      requires Valid() && key in cache
      modifies cache[key]
      ensures Valid()
      ensures ItemAt(old(State()), key).Some? && ItemAt(old(State()), key).value.nodeList != []
      ensures State() == WithItem(old(State()), key, Some(Served(ItemAt(old(State()), key).value)))
      ensures r == ServeReply(ItemAt(old(State()), key).value)
    {
      hide *;
      ghost var t, u := State(), cache[key].Value();
      ItemFacts(key);
      ValidItem(key);
      ServedItem(t, key);
      UnitFields(cache[key]);
      if cache[key].overload { return FromAgent; }
      var host := cache[key].GetHost();
      UnitFields(cache[key]);
      ItemFacts(key);
      OneItemChanged(key);
      r := FromCache(host);
    }

    method RepeatedRequest(modid: Int32, cmdid: Int32, now: int, fetch: Fetch) returns (r: ApiReply)
      requires Valid() && ItemAt(State(), Pack(modid, cmdid)).Some?
      requires Usable(ItemAt(State(), Pack(modid, cmdid)), fetch)
      modifies this`cache, cache.Values, outbox
      ensures Valid()
      ensures old(outbox.messages) <= outbox.messages
      ensures var key, sent := Pack(modid, cmdid), outbox.messages[|old(outbox.messages)|..];
              var c := ItemAt(old(State()), key);
              && State() == WithItem(old(State()), key, ClientStep(c, GetCall(now, fetch)))
              && r == GetReply(c, now, fetch)
              && (if Flushes(c, GetCall(now, fetch)) then IsFlush(sent, modid, cmdid, c.value) else sent == [])
    {
      hide *;
      var key := Pack(modid, cmdid);
      ghost var t, c := State(), ItemAt(State(), key);
      KnownItem(modid, cmdid);
      GetInSteps(c, now, fetch);
      FlushesKnown(c.value, now, fetch);
      if now - cache[key].lstUpdTs >= 2 {
        RefreshModule(modid, cmdid, now, fetch);
      } else {
        WithSameItem(t, key);
      }
      ItemOfWith(t, key, Refetched(c, now, fetch));
      ItemFacts(key);
      if key !in cache { return Error(NOT_EXIST); }
      WithItemTwice(t, key, Refetched(c, now, fetch), ClientStep(c, GetCall(now, fetch)));
      r := Serve(key);
    }

    lemma KnownItem(modid: Int32, cmdid: Int32)
      requires Valid() && ItemAt(State(), Pack(modid, cmdid)).Some?
      ensures var key := Pack(modid, cmdid);
              var c := ItemAt(State(), key);
              && key in cache && c == Some(cache[key].Value()) && CachedInv(c)
              && cache[key].lstUpdTs == c.value.lstUpdTs
              && cache[key].overload == c.value.overload
              && cache[key].modid == modid && cache[key].cmdid == cmdid
    {
      var key := Pack(modid, cmdid);
      assert Pack(cache[key].modid, cache[key].cmdid) == key;
      assert ItemInv(cache[key].Value());
      PackInjective(modid, cmdid, cache[key].modid, cache[key].cmdid);
    }

    /** Flushes and refetches a cached module. */
    method RefreshModule(modid: Int32, cmdid: Int32, now: int, fetch: Fetch)
      requires Valid() && ItemAt(State(), Pack(modid, cmdid)).Some?
      requires Usable(ItemAt(State(), Pack(modid, cmdid)), fetch)
      requires Expired(now, ItemAt(State(), Pack(modid, cmdid)).value)
      modifies this`cache, cache.Values, outbox
      ensures Valid() && fresh(cache.Values - old(cache.Values))
      ensures old(outbox.messages) <= outbox.messages
      ensures var key, sent := Pack(modid, cmdid), outbox.messages[|old(outbox.messages)|..];
              var c := ItemAt(old(State()), key);
              && State() == WithItem(old(State()), key, Refetched(c, now, fetch))
              && IsFlush(sent, modid, cmdid, c.value)
    {
      hide *;
      var key := Pack(modid, cmdid);
      ghost var t, c := State(), ItemAt(State(), key);
      KnownItem(modid, cmdid);
      GetInSteps(c, now, fetch);
      FlushModule(key);
      ItemFacts(key);
      FlushedIn(t, key, c.value);
      FlushedLosesNothing(c.value, fetch);
      var ret := GetRoute4Cache(modid, cmdid, now, fetch);
      WithItemTwice(t, key, Some(Flushed(c.value)), Refetched(c, now, fetch));
    }

    /** A call's outcome: a success is counted in the cache while no host of the
        module is overloaded; anything else goes to the agent at once, a failure
        behind the successes collected so far. */
    method ApiReportRes(modid: Int32, cmdid: Int32, host: Addr, retcode: int, tcost: nat)
      requires Valid()
      modifies cache.Values, outbox
      ensures Valid()
      ensures old(outbox.messages) <= outbox.messages
      ensures var key, sent := Pack(modid, cmdid), outbox.messages[|old(outbox.messages)|..];
              var c, op := ItemAt(old(State()), key), ReportCall(host, retcode == 0);
              if agentOff then State() == old(State()) && sent == []
              else
                && State() == WithItem(old(State()), key, ClientStep(c, op))
                && ReportMessages(sent, modid, cmdid, c, host, retcode, tcost)
    {
      hide *;
      if agentOff { return; }
      var key := Pack(modid, cmdid);
      ghost var t, c := State(), ItemAt(State(), key);
      ItemFacts(key);
      ReportInSteps(t, key, c, host, retcode);
      if key in cache {
        KnownItem(modid, cmdid);
        if !cache[key].overload {
          if retcode == 0 {
            CountSuccess(key, host);
            NoMessages(modid, cmdid, c, host, retcode, tcost);
            assert outbox.messages[|old(outbox.messages)|..] == [];
            return;
          }
          FlushModule(key);
          FlushedIn(t, key, c.value);
        }
      }
      CallAppended(old(outbox.messages), outbox.messages, modid, cmdid, c, host, retcode, tcost);
      outbox.Send(CallMsg(modid, cmdid, host, retcode, if retcode != 0 then Some(tcost) else None));
    }

    method CountSuccess(key: Uint64, host: Addr)
      requires Valid() && ItemAt(State(), key).Some? && !ItemAt(State(), key).value.overload
      modifies cache.Values
      ensures Valid()
      ensures State() == WithItem(old(State()), key, ClientStep(ItemAt(old(State()), key), ReportCall(host, true)))
    {
      hide *;
      ghost var c := ItemAt(State(), key);
      ItemFacts(key);
      ValidItem(key);
      ClientStepKeepsInv(c, ReportCall(host, true));
      CountedItem(c.value, host);
      cache[key].Report(host.ip, host.port);
      ItemFacts(key);
      InvOf(ItemNow(key));
      OneItemChanged(key);
    }

    lemma ValidItem(key: Uint64)
      requires Valid() && key in cache
      ensures CachedInv(ItemAt(State(), key)) && ItemAt(State(), key) == Some(cache[key].Value())
      ensures Pack(cache[key].modid, cache[key].cmdid) == key
      ensures forall k :: k in cache && k != key ==> cache[k] != cache[key]
    {
      assert ItemInv(cache[key].Value());
    }

    /** At the end of the client's life: every item is flushed, in some order. */
    method Close()
      requires Valid()
      modifies cache.Values, outbox
      ensures Valid()
      ensures State() == AllClosed(old(State()), old(State()).Keys)
      ensures old(outbox.messages) <= outbox.messages
      ensures exists order :: AllFlushed(outbox.messages[|old(outbox.messages)|..], old(State()), order)
                              && forall k :: k in order <==> k in old(State())
    {
      hide *;
      ghost var t, order, before := State(), [], outbox.messages;
      var left := cache.Keys;
      SameKeys();
      NothingClosed(t);
      assert outbox.messages[|before|..] == [];
      while left != {}
        invariant Valid() && cache == old(cache) && left <= cache.Keys
        invariant State() == AllClosed(t, t.Keys - left)
        invariant before <= outbox.messages
        invariant AllFlushed(outbox.messages[|before|..], t, order)
        invariant forall k :: k in order <==> k in t.Keys && k !in left
        decreases left
      {
        var key :| key in left;
        ghost var mid := outbox.messages;
        ItemFacts(key);
        ValidItem(key);
        OneMoreClosed(t, t.Keys - left, key);
        FlushModule(key);
        assert outbox.messages[|before|..] == mid[|before|..] + outbox.messages[|mid|..];
        OneMoreFlushed(mid[|before|..], outbox.messages[|mid|..], t, order, key,
                       cache[key].modid, cache[key].cmdid);
        order := order + [key];
        assert t.Keys - left + {key} == t.Keys - (left - {key});
        left := left - {key};
      }
      assert t.Keys - {} == t.Keys;
    }

    lemma SameKeys()
      ensures State().Keys == cache.Keys
    {
    }
  }
}
