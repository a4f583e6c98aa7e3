/** What each call does to a cached module, in terms of its fields. */
module ClientRules {
  import opened Wrappers
  import opened Words
  import opened LoadBalancer
  import opened Counting
  import opened ClientCache

  /** All but the counters is the same. */
  predicate SameRoute(r: CacheItem, u: CacheItem) {
    r.overload == u.overload && r.lstUpdTs == u.lstUpdTs && r.version == u.version && r.nodeList == u.nodeList
  }

  /** Every success on a listed host of a module without overloaded hosts is held, as
      one more for that host and for no other. */
  lemma SuccessIsHeld(u: CacheItem, host: Addr, k: Uint64)
    requires ItemInv(u) && !u.overload && host in u.nodeList
    ensures var r := ClientStep(Some(u), ReportCall(host, true));
            && r.Some? && SameRoute(r.value, u) && r.value.succCnt == u.succCnt + 1
            && Pending(r, k) == Pending(Some(u), k) + if k == host.Key() then 1 else 0
  {
    CountedExactly(u, host);
    hide ItemInv, Sum, KeySet, Pack;
  }

  /** Any other success changes nothing here. */
  lemma OtherSuccess(u: CacheItem, host: Addr)
    requires ItemInv(u) && (u.overload || host !in u.nodeList)
    ensures ClientStep(Some(u), ReportCall(host, true)) == Some(u)
  {
    CountedExactly(u, host);
    hide ItemInv, Sum, KeySet, Pack;
  }

  /** A flush zeroes all counters and the total, and nothing else. */
  lemma FlushedInFields(u: CacheItem)
    requires ItemInv(u)
    ensures var r := Flushed(u);
            && SameRoute(r, u) && r.succCnt == 0 && r.succAccum.Keys == u.succAccum.Keys
            && forall k :: k in r.succAccum ==> r.succAccum[k] == 0
  {
    FlushedKeepsInv(u);
    hide ItemInv, Sum, KeySet;
  }

  /** Exactly when collected successes are sent: before a refresh of an item that is two
      seconds old, before a failure of a module without overloaded hosts, and at the end. */
  lemma FlushesExactly(c: Cached, now: int, f: Fetch, host: Addr, ok: bool)
    ensures Flushes(c, GetCall(now, f)) <==> c.Some? && now - c.value.lstUpdTs >= 2
    ensures Flushes(c, ReportCall(host, ok)) <==> c.Some? && !ok && !c.value.overload
    ensures Flushes(c, Close) <==> c.Some?
  {
  }

  /** A failure, and the end of the client, leave the item flushed. */
  lemma OthersFlush(u: CacheItem, host: Addr)
    ensures ClientStep(Some(u), ReportCall(host, false)) == Some(if u.overload then u else Flushed(u))
    ensures ClientStep(Some(u), Close) == Some(Flushed(u))
  {
    assert u.overload ==> !Accepts(Some(u), host, false);
  }

  /** What a reply makes of an item: none for a missing module; for a new version the
      reply, with zero counters; for the same version its flag and the time. */
  lemma FetchInFields(c: Cached, ts: int, f: Fetch)
    ensures f.Failed? ==> AfterFetch(c, ts, f) == c
    ensures f.Fetched? && f.version == -1 ==> AfterFetch(c, ts, f) == None
    ensures f.Fetched? && f.version != -1 ==>
              && AfterFetch(c, ts, f).Some?
              && var r := AfterFetch(c, ts, f).value;
              && r.overload == f.overload && r.lstUpdTs == ts && r.version == f.version && r.succCnt == 0
              && if c.Some? && c.value.version == f.version then
                   r.nodeList == c.value.nodeList && r.succAccum == c.value.succAccum
                 else
                   && r.nodeList == f.route && r.succAccum.Keys == KeySet(f.route)
                   && forall k :: k in r.succAccum ==> r.succAccum[k] == 0
  {
    hide KeySet;
  }

  /** The item behind the exchange of a request: a missing module and one that is two
      seconds old are fetched, the latter behind a flush. */
  function Fresh(c: Cached, now: int, f: Fetch): Cached {
    if c.None? then AfterFetch(None, now, f)
    else if now - c.value.lstUpdTs >= 2 then AfterFetch(Some(Flushed(c.value)), now, f)
    else c
  }

  /** How a request is answered: by an error without an item, by the agent if some host
      of the module is overloaded, else by the first host, which goes to the end. */
  lemma GetInFields(c: Cached, now: int, f: Fetch)
    requires CachedInv(c) && Usable(c, f)
    ensures var d, r := Fresh(c, now, f), ClientStep(c, GetCall(now, f));
            if d.None? then
              r == None && GetReply(c, now, f) == Error(if c.None? && f.Failed? then -9999 else -9998)
            else if d.value.overload then r == d && GetReply(c, now, f) == FromAgent
            else
              && d.value.nodeList != []
              && GetReply(c, now, f) == FromCache(d.value.nodeList[0])
              && r == Some(d.value.(nodeList := d.value.nodeList[1..] + [d.value.nodeList[0]]))
  {
    GetInSteps(c, now, f);
    hide AfterFetch, Flushed, CachedInv, Usable, ItemInv;
  }
}
