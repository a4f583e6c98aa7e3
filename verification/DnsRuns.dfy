/** Runs of the DNS server's steps that stand for one handler each. */
module DnsRuns {
  import opened Wrappers
  import opened Words
  import opened Sequences
  import opened RouteData
  import opened Subscriptions
  import opened DnsMachine

  /** The state after some steps; a step that is not enabled does not happen. */
  function RunFrom(s: Dns, run: seq<Step>): Dns {
    if run == [] then s
    else
      var t := RunFrom(s, run[..|run| - 1]);
      if Enabled(t, run[|run| - 1]) then Next(t, run[|run| - 1]) else t
  }

  lemma RunFromExtended(s: Dns, run: seq<Step>, e: Step)
    ensures RunFrom(s, run + [e])
         == if Enabled(RunFrom(s, run), e) then Next(RunFrom(s, run), e) else RunFrom(s, run)
  {
    assert (run + [e])[..|run|] == run;
  }

  lemma RunFromNone(s: Dns)
    ensures RunFrom(s, []) == s
  {
  }

  lemma RunFromOne(s: Dns, e: Step)
    ensures RunFrom(s, [e]) == if Enabled(s, e) then Next(s, e) else s
  {
    assert [] + [e] == [e];
    RunFromExtended(s, [], e);
  }

  lemma {:induction false} RunFromConcat(s: Dns, a: seq<Step>, b: seq<Step>)
    ensures RunFrom(s, a + b) == RunFrom(RunFrom(s, a), b)
  {
    if b == [] {
      assert a + b == a;
    } else {
      hide Next, Enabled;
      var n := |b| - 1;
      RunFromConcat(s, a, b[..n]);
      RunFromExtended(s, a + b[..n], b[n]);
      assert a + b[..n] + [b[n]] == a + b;
    }
  }

  /** Whatever is proved of all runs holds behind a handler, too. */
  lemma {:induction false} AfterThen(rows: seq<Row>, run: seq<Step>, more: seq<Step>)
    ensures After(rows, run + more) == RunFrom(After(rows, run), more)
  {
    if more == [] {
      assert run + more == run;
    } else {
      hide Next, Enabled;
      var n := |more| - 1;
      AfterThen(rows, run, more[..n]);
      AfterExtended(rows, run + more[..n], more[n]);
      assert run + more[..n] + [more[n]] == run + more;
    }
  }

  function Elements<T(==)>(s: seq<T>): set<T> {
    set x | x in s
  }

  lemma ElementsWithout<T>(all: set<T>, s: seq<T>, x: T)
    ensures all - Elements(s) - {x} == all - Elements(s + [x])
  {
  }

  // ---------- A round of the loader ----------

  function FillSteps(n: nat): seq<Step> {
    seq(n, i => FillRow)
  }

  lemma {:induction false} FillRun(s: Dns, rows: seq<Row>, announce: bool, n: nat)
    requires s.loader == Filling(rows, 0, announce) && s.spare == map[] && n <= |rows|
    ensures RunFrom(s, FillSteps(n)) == s.(spare := Group(rows[..n]), loader := Filling(rows, n, announce))
  {
    if n > 0 {
      FillRun(s, rows, announce, n - 1);
      assert FillSteps(n) == FillSteps(n - 1) + [FillRow];
      RunFromExtended(s, FillSteps(n - 1), FillRow);
      GroupExtended(rows, n - 1);
    }
  }

  /** A reload, and a swap and an announcement if the query succeeds. */
  function ReloadSteps(query: Option<seq<Row>>, announce: bool, changes: seq<Uint64>): seq<Step> {
    if query.None? then [StartReload(query, announce)]
    else ([StartReload(query, announce)] + FillSteps(|query.value|))
         + ([SwapBuffers] + if announce then [Announce(changes)] else [])
  }

  function Reloaded(s: Dns, query: Option<seq<Row>>, announce: bool, changes: seq<Uint64>): Dns {
    match query
    case None => s.(spare := map[])
    case Some(rows) =>
      s.(data := Group(rows), spare := s.data, loads := s.loads + [rows],
         waiting := if announce then Pushed(s.book, s.waiting, changes) else s.waiting)
  }

  lemma SwapRun(s: Dns, announce: bool, changes: seq<Uint64>)
    requires s.loader.Filling? && s.loader.next == |s.loader.rows| && s.loader.announce == announce
    ensures RunFrom(s, [SwapBuffers] + if announce then [Announce(changes)] else [])
         == s.(data := s.spare, spare := s.data, loads := s.loads + [s.loader.rows], loader := Resting,
               waiting := if announce then Pushed(s.book, s.waiting, changes) else s.waiting)
  {
    assert [] + [SwapBuffers] == [SwapBuffers];
    RunFromExtended(s, [], SwapBuffers);
    if announce {
      RunFromExtended(s, [SwapBuffers], Announce(changes));
    } else {
      assert [SwapBuffers] + [] == [SwapBuffers];
    }
  }

  /** The loader's round, made of its single steps. */
  lemma ReloadRun(s: Dns, query: Option<seq<Row>>, announce: bool, changes: seq<Uint64>)
    requires s.loader.Resting?
    ensures RunFrom(s, ReloadSteps(query, announce, changes)) == Reloaded(s, query, announce, changes)
  {
    hide RunFrom, FillSteps, Group, Pushed;
    var start := StartReload(query, announce);
    RunFromOne(s, start);
    if query.Some? {
      var rows := query.value;
      var s1 := s.(spare := map[], loader := Filling(rows, 0, announce));
      FillRun(s1, rows, announce, |rows|);
      assert rows[..|rows|] == rows;
      SwapRun(s1.(spare := Group(rows), loader := Filling(rows, |rows|, announce)), announce, changes);
      var swap := [SwapBuffers] + if announce then [Announce(changes)] else [];
      RunFromConcat(s, [start], FillSteps(|rows|));
      RunFromConcat(s, [start] + FillSteps(|rows|), swap);
      hide Next, Enabled;
    }
  }

  // ---------- A connection that closes ----------

  function UnsubscribeSteps(fd: Int32, mods: seq<Uint64>): seq<Step> {
    seq(|mods|, i requires 0 <= i < |mods| => Unsubscribe(fd, mods[i]))
  }

  function UnsubscribedAll(b: Book, fd: Int32, mods: seq<Uint64>): Book {
    if mods == [] then b else Unsubscribed(UnsubscribedAll(b, fd, mods[..|mods| - 1]), mods[|mods| - 1], fd)
  }

  lemma UnsubscribedAllExtended(b: Book, fd: Int32, mods: seq<Uint64>, mod: Uint64)
    ensures UnsubscribedAll(b, fd, mods + [mod]) == Unsubscribed(UnsubscribedAll(b, fd, mods), mod, fd)
  {
    assert (mods + [mod])[..|mods|] == mods;
  }

  lemma UnsubscribeOne(s: Dns, fd: Int32, mods: seq<Uint64>, mod: Uint64, t: Dns)
    requires fd in s.conns && mod !in mods && mod in s.conns[fd].interest
    requires t == s.(book := UnsubscribedAll(s.book, fd, mods),
                     conns := WithInterest(s, fd, s.conns[fd].interest - Elements(mods)))
    ensures Enabled(t, Unsubscribe(fd, mod))
    ensures Next(t, Unsubscribe(fd, mod))
         == s.(book := UnsubscribedAll(s.book, fd, mods + [mod]),
               conns := WithInterest(s, fd, s.conns[fd].interest - Elements(mods + [mod])))
  {
    UnsubscribedAllExtended(s.book, fd, mods, mod);
    hide UnsubscribedAll, Unsubscribed;
    ElementsWithout(s.conns[fd].interest, mods, mod);
  }

  lemma UnsubscribeNone(s: Dns, fd: Int32)
    requires fd in s.conns
    ensures RunFrom(s, UnsubscribeSteps(fd, []))
         == s.(book := UnsubscribedAll(s.book, fd, []), conns := WithInterest(s, fd, s.conns[fd].interest - Elements([])))
  {
    assert s.conns[fd].interest - Elements<Uint64>([]) == s.conns[fd].interest;
    assert s.conns[fd := s.conns[fd]] == s.conns;
  }

  lemma {:induction false} UnsubscribeRun(s: Dns, fd: Int32, mods: seq<Uint64>)
    requires fd in s.conns && NoDuplicates(mods) && forall m :: m in mods ==> m in s.conns[fd].interest
    ensures RunFrom(s, UnsubscribeSteps(fd, mods))
         == s.(book := UnsubscribedAll(s.book, fd, mods),
               conns := WithInterest(s, fd, s.conns[fd].interest - Elements(mods)))
  {
    if mods == [] {
      UnsubscribeNone(s, fd);
    } else {
      var n := |mods| - 1;
      var earlier, last := mods[..n], mods[n];
      assert mods == earlier + [last] && last !in earlier;
      assert UnsubscribeSteps(fd, mods) == UnsubscribeSteps(fd, earlier) + [Unsubscribe(fd, last)];
      UnsubscribeRun(s, fd, earlier);
      hide RunFrom, UnsubscribeSteps, UnsubscribedAll, Next, Enabled, Elements;
      RunFromExtended(s, UnsubscribeSteps(fd, earlier), Unsubscribe(fd, last));
      UnsubscribeOne(s, fd, earlier, last, RunFrom(s, UnsubscribeSteps(fd, earlier)));
    }
  }

  /** Closing a connection: its subscriptions in some order, then the connection. */
  lemma CloseRun(s: Dns, fd: Int32, mods: seq<Uint64>)
    requires fd in s.conns && NoDuplicates(mods) && forall m :: m in mods <==> m in s.conns[fd].interest
    ensures RunFrom(s, UnsubscribeSteps(fd, mods) + [DnsMachine.Disconnect(fd)])
         == s.(book := UnsubscribedAll(s.book, fd, mods), conns := s.conns - {fd})
  {
    UnsubscribeRun(s, fd, mods);
    RunFromExtended(s, UnsubscribeSteps(fd, mods), DnsMachine.Disconnect(fd));
    var t := RunFrom(s, UnsubscribeSteps(fd, mods));
    assert t.conns[fd].interest == {};
    assert t.conns - {fd} == s.conns - {fd};
  }

  // ---------- A push ----------

  function DeliverSteps(pairs: seq<(Int32, Uint64)>): seq<Step> {
    seq(|pairs|, i requires 0 <= i < |pairs| => Deliver(pairs[i].0, pairs[i].1))
  }

  lemma {:induction false} DeliverRun(s: Dns, pairs: seq<(Int32, Uint64)>)
    requires NoDuplicates(pairs) && forall p :: p in pairs ==> p in s.work
    ensures RunFrom(s, DeliverSteps(pairs)) == s.(work := s.work - Elements(pairs))
  {
    if pairs == [] {
      assert s.work - Elements(pairs) == s.work;
    } else {
      var n := |pairs| - 1;
      var earlier, last := pairs[..n], pairs[n];
      assert pairs == earlier + [last] && last !in earlier;
      assert DeliverSteps(pairs) == DeliverSteps(earlier) + [Deliver(last.0, last.1)];
      DeliverRun(s, earlier);
      ElementsWithout(s.work, earlier, last);
      assert last in s.work && last !in Elements(earlier);
      hide RunFrom, DeliverSteps, Elements;
      RunFromExtended(s, DeliverSteps(earlier), Deliver(last.0, last.1));
    }
  }

  /** A fetch of one loop and the delivery of all it took. */
  lemma PushRun(s: Dns, loop: nat, pairs: seq<(Int32, Uint64)>)
    requires NoDuplicates(pairs)
    requires forall p :: p in pairs <==> p in PairsOf(Taken(s.waiting, Listening(s, loop)))
    ensures RunFrom(s, [Fetch(loop)] + DeliverSteps(pairs))
         == s.(waiting := Kept(s.waiting, Listening(s, loop)), work := s.work - Elements(pairs))
  {
    assert [] + [Fetch(loop)] == [Fetch(loop)];
    RunFromExtended(s, [], Fetch(loop));
    assert RunFrom(s, []) == s;
    var t := Next(s, Fetch(loop));
    RunFromConcat(s, [Fetch(loop)], DeliverSteps(pairs));
    DeliverRun(t, pairs);
    assert t.work - Elements(pairs) == s.work - Elements(pairs);
  }
}
