/** What the client's messages say, in numbers. */
module ClientMessages {
  import opened Wrappers
  import opened Words
  import opened Sequences
  import opened Agent
  import opened ClientCache
  import opened ElbClient

  /** The successes that a batch reports for an address. */
  function ReportedFor(results: seq<BatchResult>, a: Addr): nat {
    if results == [] then 0
    else
      var last := results[|results| - 1];
      ReportedFor(results[..|results| - 1], a) + if last.addr == a then last.succCnt else 0
  }

  /** The same for some messages to the agent. */
  function SentFor(msgs: seq<ClientMsg>, a: Addr): nat {
    if msgs == [] then 0
    else
      var last := msgs[|msgs| - 1];
      SentFor(msgs[..|msgs| - 1], a) + if last.BatchMsg? then ReportedFor(last.results, a) else 0
  }

  /** No two keys are decoded to the same address. */
  lemma DecodedInjective(k: Uint64, k': Uint64)
    requires Decoded(k) == Decoded(k')
    ensures k == k'
  {
  }

  lemma {:induction false} ReportedForListing(results: seq<BatchResult>, counters: map<Uint64, nat>,
                                              keys: seq<Uint64>, k: Uint64)
    requires NoDuplicates(keys) && |results| == |keys|
    requires forall i :: 0 <= i < |keys| ==>
               keys[i] in counters && results[i] == BatchResult(Decoded(keys[i]), counters[keys[i]])
    ensures ReportedFor(results, Decoded(k)) == if k in keys then counters[k] else 0
  {
    if keys != [] {
      hide Decoded;
      var n := |keys| - 1;
      assert keys == keys[..n] + [keys[n]];
      ReportedForListing(results[..n], counters, keys[..n], k);
      if Decoded(keys[n]) == Decoded(k) { DecodedInjective(keys[n], k); }
      if keys[n] == k { assert k !in keys[..n]; }
    }
  }

  lemma SentInOne(modid: Int32, cmdid: Int32, results: seq<BatchResult>, a: Addr)
    ensures SentFor([BatchMsg(modid, cmdid, results)], a) == ReportedFor(results, a)
  {
    assert [BatchMsg(modid, cmdid, results)][..0] == [];
  }

  lemma NothingSent(a: Addr)
    ensures SentFor([], a) == 0
  {
  }

  /** The messages of a flush name the module, and report for every host exactly the
      successes that were held for it. */
  lemma FlushSends(msgs: seq<ClientMsg>, modid: Int32, cmdid: Int32, u: CacheItem, k: Uint64)
    requires ItemInv(u) && IsFlush(msgs, modid, cmdid, u)
    ensures SentFor(msgs, Decoded(k)) == Pending(Some(u), k)
    ensures forall i :: 0 <= i < |msgs| ==> msgs[i].BatchMsg? && msgs[i].modid == modid && msgs[i].cmdid == cmdid
  {
    FlushEmitsAll(u, k);
    NothingSent(Decoded(k));
    hide ItemInv, Decoded, Flushed, SentFor, ReportedFor, Carries, Emitted;
    if u.succCnt != 0 {
      var results := msgs[0].results;
      assert msgs == [BatchMsg(modid, cmdid, results)];
      SentInOne(modid, cmdid, results, Decoded(k));
      CarriedSuccesses(results, u.succAccum, k);
      PendingOf(u, k);
    } else {
      NothingPending(u, k);
    }
  }

  lemma CarriedSuccesses(results: seq<BatchResult>, counters: map<Uint64, nat>, k: Uint64)
    requires Carries(results, counters)
    ensures ReportedFor(results, Decoded(k)) == if k in counters then counters[k] else 0
  {
    var keys :| Lists(results, counters, keys);
    hide Decoded, ReportedFor;
    ReportedForListing(results, counters, keys, k);
  }

  lemma PendingOf(u: CacheItem, k: Uint64)
    ensures Pending(Some(u), k) == if k in u.succAccum then u.succAccum[k] else 0
  {
  }

  lemma NothingPending(u: CacheItem, k: Uint64)
    requires u.succCnt == 0
    ensures Emitted(u, k) == 0
  {
  }

  /** What a report sends: nothing if it is held; else the call as it was reported, with
      its time if it failed, behind what was held if that is flushed. */
  lemma ReportSends(sent: seq<ClientMsg>, modid: Int32, cmdid: Int32, c: Cached, host: Addr, retcode: int, tcost: nat,
                    k: Uint64)
    requires CachedInv(c) && ReportMessages(sent, modid, cmdid, c, host, retcode, tcost)
    ensures c.Some? && !c.value.overload && retcode == 0 ==> sent == []
    ensures !(c.Some? && !c.value.overload && retcode == 0) ==>
              && sent != []
              && sent[|sent| - 1] == CallMsg(modid, cmdid, host, retcode, if retcode == 0 then None else Some(tcost))
    ensures SentFor(sent, Decoded(k)) == if c.Some? && !c.value.overload && retcode != 0 then Pending(c, k) else 0
  {
    if sent != [] {
      var flushed := sent[..|sent| - 1];
      if c.Some? && !c.value.overload && retcode != 0 {
        FlushSends(flushed, modid, cmdid, c.value, k);
      } else {
        assert flushed == [];
      }
    }
  }

  /** At the end of the client's life every item makes the step of its module. */
  lemma ClosedItems(t: Items, k: Uint64)
    ensures ItemAt(AllClosed(t, t.Keys), k) == ClientStep(ItemAt(t, k), Close)
  {
  }

  /** Among the last messages are those of every module's flush, one behind the other. */
  lemma {:induction false} ClosedMessages(sent: seq<ClientMsg>, t: Items, order: seq<Uint64>, k: Uint64)
    requires AllFlushed(sent, t, order) && k in order
    ensures k in t
    ensures exists lo: nat, hi: nat, modid: Int32, cmdid: Int32 ::
              lo <= hi <= |sent| && Pack(modid, cmdid) == k && IsFlush(sent[lo..hi], modid, cmdid, t[k])
    decreases |order|
  {
    hide Pack, IsFlush;
    var earlier, last := order[..|order| - 1], order[|order| - 1];
    assert order == earlier + [last];
    var n: nat, modid: Int32, cmdid: Int32 :|
      && n <= |sent| && Pack(modid, cmdid) == last
      && AllFlushed(sent[..n], t, earlier) && IsFlush(sent[n..], modid, cmdid, t[last]);
    if k == last {
      assert sent[n..|sent|] == sent[n..];
    } else {
      ClosedMessages(sent[..n], t, earlier, k);
      var lo: nat, hi: nat, m: Int32, c: Int32 :|
        lo <= hi <= |sent[..n]| && Pack(m, c) == k && IsFlush(sent[..n][lo..hi], m, c, t[k]);
      assert sent[..n][lo..hi] == sent[lo..hi];
    }
  }
}
