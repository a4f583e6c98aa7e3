/** What a client caches about one module, as a value, and the conservation of
    the successes it collects there.

    A cached module is a versioned copy of the agent's host list with one success
    counter per host. Successes are counted locally and sent in batches. */
module ClientCache {
  import opened Wrappers
  import opened Words
  import opened Sequences
  import opened LoadBalancer
  import opened Counting

  datatype CacheItem = CacheItem(
    overload: bool, lstUpdTs: int, version: int, succCnt: nat, nodeList: seq<Addr>, succAccum: map<Uint64, nat>)

  /** Nothing cached, or the item of the module. */
  type Cached = Option<CacheItem>

  /** The outcome of asking the agent: no usable reply, or its contents. */
  datatype Fetch = Failed | Fetched(version: int, overload: bool, route: seq<Addr>)

  /** The cached version, -1 when there is none. */
  function VersionOf(c: Cached): int {
    if c.Some? then c.value.version else -1
  }

  /** A reply that brings a new version brings hosts: the agent sends no other. */
  predicate Usable(c: Cached, f: Fetch) {
    f.Fetched? && f.version != -1 && (c.None? || f.version != c.value.version) ==> f.route != []
  }

  /** The counters belong to the listed hosts and add up to the total; there is a host to return. */
  ghost predicate ItemInv(u: CacheItem) {
    && u.succAccum.Keys == KeySet(u.nodeList)
    && u.succCnt == Sum(u.succAccum)
    && u.nodeList != []
  }

  ghost predicate CachedInv(c: Cached) {
    c.Some? ==> ItemInv(c.value)
  }

  // ---------- The operations ----------

  function ZeroCounters(keys: set<Uint64>): map<Uint64, nat> {
    map k | k in keys :: 0
  }

  /** `batchReportRes`: all counters are sent and zeroed, unless the total is zero. */
  function Flushed(u: CacheItem): CacheItem {
    if u.succCnt == 0 then u
    else u.(succCnt := 0, succAccum := ZeroCounters(u.succAccum.Keys))
  }

  /** What the batch says about a host key. */
  function Emitted(u: CacheItem, k: Uint64): nat {
    if u.succCnt != 0 && k in u.succAccum then u.succAccum[k] else 0
  }

  /** `getRoute4Cache`: a missing module is dropped, a new version replaces the
      item, the same version refreshes its flag and time and zeroes the total only. */
  function AfterFetch(c: Cached, ts: int, f: Fetch): Cached {
    match f
    case Failed => c
    case Fetched(version, overload, route) =>
      if version == -1 then None
      else if c.None? || version != c.value.version then
        Some(CacheItem(overload, ts, version, 0, route, ZeroCounters(KeySet(route))))
      else Some(c.value.(overload := overload, succCnt := 0, lstUpdTs := ts))
  }

  /** An item is asked for again two seconds after its last update. */
  predicate Expired(now: int, u: CacheItem) {
    now - u.lstUpdTs >= 2
  }

  datatype ClientOp =
    | GetCall(now: int, fetch: Fetch)
    | ReportCall(host: Addr, ok: bool)
    | Close

  /** The item after the fetch that a `Get` may make. */
  function Refetched(c: Cached, now: int, f: Fetch): Cached {
    if c.None? then AfterFetch(None, now, f)
    else if Expired(now, c.value) then AfterFetch(Some(Flushed(c.value)), now, f)
    else c
  }

  /** The host a `Get` takes from the cache, if it does not go to the agent. */
  function HostFrom(c: Cached, now: int, f: Fetch): Option<Addr> {
    var r := Refetched(c, now, f);
    if r.Some? && !r.value.overload && r.value.nodeList != [] then Some(r.value.nodeList[0]) else None
  }

  /** What the cache says to a request for a host. */
  datatype ApiReply = FromCache(host: Addr) | FromAgent | Error(code: int)

  /** The exchange by which the client asks the agent for a host: no usable reply,
      or the agent's return code and host. */
  datatype Exchange = NoReply | Reply(retcode: int, host: Addr)

  /** What a call returns, unless it never does. */
  datatype HostResult = Returned(ret: int, host: Option<Addr>) | NeverReturns

  /** The result of a request that the cache may pass on to the agent. */
  function Completed(r: ApiReply, x: Exchange): HostResult {
    match r
    case FromCache(host) => Returned(0, Some(host))
    case Error(code) => Returned(code, None)
    case FromAgent =>
      match x
      case NoReply => Returned(SYSTEM_ERROR, None)
      case Reply(retcode, host) => Returned(retcode, if retcode == 0 then Some(host) else None)
  }

  const NOT_EXIST := -9998
  const SYSTEM_ERROR := -9999

  /** What `apiGetHost` returns, or that it goes on to ask the agent for a host. */
  function GetReply(c: Cached, now: int, f: Fetch): ApiReply {
    if c.None? && f.Failed? then Error(SYSTEM_ERROR)
    else if Refetched(c, now, f).None? then Error(NOT_EXIST)
    else if HostFrom(c, now, f).Some? then FromCache(HostFrom(c, now, f).value)
    else FromAgent
  }

  predicate Accepts(c: Cached, host: Addr, ok: bool) {
    ok && c.Some? && !c.value.overload && host.Key() in c.value.succAccum
  }

  /** A success for host key k, if that host is listed. */
  function CountedIn(u: CacheItem, k: Uint64): CacheItem {
    if k in u.succAccum then u.(succCnt := u.succCnt + 1, succAccum := u.succAccum[k := u.succAccum[k] + 1])
    else u
  }

  function ClientStep(c: Cached, op: ClientOp): Cached {
    match op
    case GetCall(now, f) =>
      var r := Refetched(c, now, f);
      if HostFrom(c, now, f).Some? then Some(r.value.(nodeList := Rotated(r.value.nodeList))) else r
    case ReportCall(host, ok) =>
      if Accepts(c, host, ok) then Some(CountedIn(c.value, host.Key()))
      else if c.Some? && !c.value.overload && !ok then Some(Flushed(c.value))
      else c
    case Close => if c.Some? then Some(Flushed(c.value)) else None
  }

  /** Serving from an item: its next host, unless one of the module's hosts is overloaded. */
  function Served(u: CacheItem): CacheItem
    requires u.nodeList != []
  {
    if u.overload then u else u.(nodeList := Rotated(u.nodeList))
  }

  function ServeReply(u: CacheItem): ApiReply
    requires u.nodeList != []
  {
    if u.overload then FromAgent else FromCache(u.nodeList[0])
  }

  /** The parts of a `Get`: perhaps a flush, perhaps a fetch, perhaps a rotation. */
  lemma GetInSteps(c: Cached, now: int, f: Fetch)
    requires CachedInv(c) && Usable(c, f)
    ensures c.None? ==> Refetched(c, now, f) == AfterFetch(None, now, f)
    ensures c.None? && f.Fetched? && f.version != -1 ==> Refetched(c, now, f).value.lstUpdTs == now
    ensures c.Some? && Expired(now, c.value) ==>
              && ItemInv(Flushed(c.value)) && Flushed(c.value).succCnt == 0
              && Usable(Some(Flushed(c.value)), f)
              && Refetched(c, now, f) == AfterFetch(Some(Flushed(c.value)), now, f)
    ensures c.Some? && !Expired(now, c.value) ==> Refetched(c, now, f) == c
    ensures CachedInv(Refetched(c, now, f)) && CachedInv(ClientStep(c, GetCall(now, f)))
    ensures var r := Refetched(c, now, f);
            && (r.Some? ==> r.value.nodeList != [])
            && ClientStep(c, GetCall(now, f)) == (if r.Some? then Some(Served(r.value)) else None)
            && GetReply(c, now, f) == if c.None? && f.Failed? then Error(SYSTEM_ERROR)
                                      else if r.None? then Error(NOT_EXIST)
                                      else ServeReply(r.value)
  {
    RefetchedKeepsInv(c, now, f);
    ClientStepKeepsInv(c, GetCall(now, f));
    if c.Some? { FlushedKeepsInv(c.value); }
  }

  /** The operation sends the collected successes before anything else. */
  predicate Flushes(c: Cached, op: ClientOp) {
    c.Some? && match op
               case GetCall(now, f) => Expired(now, c.value)
               case ReportCall(_, ok) => !ok && !c.value.overload
               case Close => true
  }

  // ---------- The invariant ----------

  lemma FlushedKeepsInv(u: CacheItem)
    requires ItemInv(u)
    ensures ItemInv(Flushed(u)) && Flushed(u).succCnt == 0
    ensures forall k :: k in u.succAccum ==> Flushed(u).succAccum[k] == 0
  {
    SumZero(u.succAccum);
    SumZero(Flushed(u).succAccum);
  }

  /** A reply with the item's version zeroes the total over counters that are not zero. */
  predicate LosesTotal(c: Cached, f: Fetch) {
    f.Fetched? && f.version != -1 && c.Some? && f.version == c.value.version && c.value.succCnt != 0
  }

  lemma FlushedLosesNothing(u: CacheItem, f: Fetch)
    ensures !LosesTotal(None, f) && !LosesTotal(Some(Flushed(u)), f)
  {
  }

  lemma AfterFetchKeepsInv(c: Cached, ts: int, f: Fetch)
    requires CachedInv(c) && Usable(c, f)
    ensures CachedInv(AfterFetch(c, ts, f)) <==> !LosesTotal(c, f)
  {
    if f.Fetched? {
      SumZero(ZeroCounters(KeySet(f.route)));
    }
  }

  lemma RefetchedKeepsInv(c: Cached, now: int, f: Fetch)
    requires CachedInv(c) && Usable(c, f)
    ensures CachedInv(Refetched(c, now, f))
  {
    if c.Some? { FlushedKeepsInv(c.value); }
    if c.None? { AfterFetchKeepsInv(None, now, f); }
    else if Expired(now, c.value) { AfterFetchKeepsInv(Some(Flushed(c.value)), now, f); }
  }

  lemma RotatedKeySet(nodeList: seq<Addr>)
    requires nodeList != []
    ensures KeySet(Rotated(nodeList)) == KeySet(nodeList)
  {
    var a, b := Keys(nodeList), Keys(Rotated(nodeList));
    assert b == Rotated(a);
    RotatedIsPermutation(a);
  }

  lemma RotatedKeepsInv(u: CacheItem)
    requires ItemInv(u)
    ensures ItemInv(u.(nodeList := Rotated(u.nodeList)))
  {
    hide KeySet, Sum;
    RotatedKeySet(u.nodeList);
  }

  lemma CountedKeepsInv(u: CacheItem, k: Uint64)
    requires ItemInv(u)
    ensures ItemInv(CountedIn(u, k))
  {
    hide KeySet, Sum;
    if k in u.succAccum {
      SumUpdate(u.succAccum, k, u.succAccum[k] + 1);
      assert CountedIn(u, k).succAccum.Keys == u.succAccum.Keys;
    }
  }

  /** At every API boundary the total is the sum of the counters, although a
      refresh of the same version zeroes the total alone. */
  lemma ClientStepKeepsInv(c: Cached, op: ClientOp)
    requires CachedInv(c) && (op.GetCall? ==> Usable(c, op.fetch))
    ensures CachedInv(ClientStep(c, op))
  {
    hide ItemInv, Refetched, Flushed, CountedIn;
    match op
    case GetCall(now, f) =>
      RefetchedKeepsInv(c, now, f);
      if HostFrom(c, now, f).Some? { RotatedKeepsInv(Refetched(c, now, f).value); }
    case ReportCall(host, ok) =>
      if c.Some? {
        CountedKeepsInv(c.value, host.Key());
        FlushedKeepsInv(c.value);
      }
    case Close => if c.Some? { FlushedKeepsInv(c.value); }
  }

  /** The operation fetches and gets a version the item does not have. */
  predicate BringsNew(c: Cached, op: ClientOp) {
    && op.GetCall? && (c.None? || Expired(op.now, c.value))
    && op.fetch.Fetched? && op.fetch.version != -1 && (c.None? || op.fetch.version != c.value.version)
  }

  lemma RefetchedListing(c: Cached, now: int, f: Fetch)
    requires Refetched(c, now, f).Some?
    ensures var u := Refetched(c, now, f).value;
            if BringsNew(c, GetCall(now, f)) then u.nodeList == f.route && u.version == f.version
            else c.Some? && u.nodeList == c.value.nodeList && u.version == c.value.version
  {
  }

  /** A reply that arrives decides the item: no module, or its version and flag. */
  lemma ReplyIsTaken(c: Cached, now: int, f: Fetch)
    requires CachedInv(c) && Usable(c, f) && f.Fetched? && (c.None? || Expired(now, c.value))
    ensures var r := ClientStep(c, GetCall(now, f));
            if f.version == -1 then r == None
            else r.Some? && r.value.version == f.version && r.value.overload == f.overload
  {
  }

  /** The same hosts, listed from another starting point. */
  predicate SameListing(a: seq<Addr>, b: seq<Addr>) {
    KeySet(a) == KeySet(b) && (NoDuplicates(Keys(b)) ==> NoDuplicates(Keys(a)))
  }

  lemma ServedListing(u: CacheItem)
    requires u.nodeList != []
    ensures SameListing(Served(u).nodeList, u.nodeList) && Served(u).version == u.version
  {
    RotatedKeySet(u.nodeList);
    assert Keys(Rotated(u.nodeList)) == Rotated(Keys(u.nodeList));
    RotatedIsPermutation(Keys(u.nodeList));
  }

  /** An item lists the hosts of its last new version, in some rotation. */
  lemma ListingAfterStep(c: Cached, op: ClientOp)
    requires CachedInv(c) && (op.GetCall? ==> Usable(c, op.fetch)) && ClientStep(c, op).Some?
    ensures !BringsNew(c, op) ==> c.Some?
    ensures var r := ClientStep(c, op).value;
            if BringsNew(c, op) then SameListing(r.nodeList, op.fetch.route) && r.version == op.fetch.version
            else SameListing(r.nodeList, c.value.nodeList) && r.version == c.value.version
  {
    if op.GetCall? {
      hide *;
      GetInSteps(c, op.now, op.fetch);
      RefetchedListing(c, op.now, op.fetch);
      ServedListing(Refetched(c, op.now, op.fetch).value);
    }
  }

  // ---------- Conservation of successes ----------

  /** Successes for key k that the cache holds. */
  function Pending(c: Cached, k: Uint64): nat {
    if c.Some? && k in c.value.succAccum then c.value.succAccum[k] else 0
  }

  ghost predicate UsableRun(run: seq<ClientOp>) {
    forall i :: 0 <= i < |run| && run[i].GetCall? ==> Usable(ClientRun(run[..i]), run[i].fetch)
  }

  function ClientRun(run: seq<ClientOp>): Cached {
    if run == [] then None else ClientStep(ClientRun(run[..|run| - 1]), run[|run| - 1])
  }

  /** A success on a host that the item lists, while no host of the module is overloaded. */
  predicate IsListedSuccess(c: Cached, op: ClientOp, k: Uint64) {
    && op.ReportCall? && op.ok && op.host.Key() == k
    && c.Some? && !c.value.overload && op.host in c.value.nodeList
  }

  /** The listed successes for key k in a run, and those that were sent. */
  function AcceptedCount(run: seq<ClientOp>, k: Uint64): nat {
    if run == [] then 0
    else
      AcceptedCount(run[..|run| - 1], k)
      + if IsListedSuccess(ClientRun(run[..|run| - 1]), run[|run| - 1], k) then 1 else 0
  }

  function EmittedCount(run: seq<ClientOp>, k: Uint64): nat {
    if run == [] then 0
    else
      var c, last := ClientRun(run[..|run| - 1]), run[|run| - 1];
      EmittedCount(run[..|run| - 1], k) + if Flushes(c, last) then Emitted(c.value, k) else 0
  }

  lemma ConservedByStep(c: Cached, op: ClientOp, k: Uint64)
    requires CachedInv(c) && (op.GetCall? ==> Usable(c, op.fetch))
    ensures (if IsListedSuccess(c, op, k) then 1 else 0) + Pending(c, k)
         == (if Flushes(c, op) then Emitted(c.value, k) else 0) + Pending(ClientStep(c, op), k)
  {
    if c.Some? {
      FlushEmitsAll(c.value, k);
      if op.ReportCall? { CountedExactly(c.value, op.host); }
    }
    hide Sum, ItemInv, KeySet, Usable, Flushed, Emitted, Pack;
  }

  /** A host has a counter exactly if the item lists it. */
  lemma CountedExactly(u: CacheItem, host: Addr)
    requires ItemInv(u)
    ensures host.Key() in u.succAccum <==> host in u.nodeList
  {
    if host.Key() in u.succAccum {
      assert host.Key() in KeySet(u.nodeList);
      var i :| 0 <= i < |u.nodeList| && Keys(u.nodeList)[i] == host.Key();
      PackInjective(host.ip, host.port, u.nodeList[i].ip, u.nodeList[i].port);
    }
    if host in u.nodeList {
      var i :| 0 <= i < |u.nodeList| && u.nodeList[i] == host;
      KeySetOf(u.nodeList, i);
    }
  }

  /** A flush sends what is held for every host and leaves nothing. */
  lemma FlushEmitsAll(u: CacheItem, k: Uint64)
    requires ItemInv(u)
    ensures Pending(Some(u), k) == Emitted(u, k) && Pending(Some(Flushed(u)), k) == 0
  {
    FlushedKeepsInv(u);
    SumZero(u.succAccum);
  }

  lemma {:induction false} ClientRunKeepsInv(run: seq<ClientOp>)
    requires UsableRun(run)
    ensures CachedInv(ClientRun(run))
  {
    if run != [] {
      var n := |run| - 1;
      forall i | 0 <= i < n ensures run[..n][..i] == run[..i] {}
      ClientRunKeepsInv(run[..n]);
      ClientStepKeepsInv(ClientRun(run[..n]), run[n]);
    }
  }

  /** Over every run and for every host key: successes accepted = successes sent
      in batches + successes still held. Nothing is lost or sent twice by a
      refresh, a removal or a failing report. */
  lemma {:induction false} SuccessesAreConserved(run: seq<ClientOp>, k: Uint64)
    requires UsableRun(run)
    ensures AcceptedCount(run, k) == EmittedCount(run, k) + Pending(ClientRun(run), k)
  {
    if run != [] {
      var n := |run| - 1;
      forall i | 0 <= i < n ensures run[..n][..i] == run[..i] {}
      ClientRunKeepsInv(run[..n]);
      SuccessesAreConserved(run[..n], k);
      ConservedByStep(ClientRun(run[..n]), run[n], k);
    }
  }

  /** After the final flush everything accepted has been sent. */
  lemma NothingHeldAfterClose(run: seq<ClientOp>, k: Uint64)
    requires UsableRun(run) && run != [] && run[|run| - 1].Close?
    ensures AcceptedCount(run, k) == EmittedCount(run, k)
  {
    var n := |run| - 1;
    forall i | 0 <= i < n ensures run[..n][..i] == run[..i] {}
    ClientRunKeepsInv(run[..n]);
    var c := ClientRun(run[..n]);
    if c.Some? { FlushedKeepsInv(c.value); }
    SuccessesAreConserved(run, k);
  }
}
