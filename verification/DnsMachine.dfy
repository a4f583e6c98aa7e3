/** The DNS server as a state machine: one loader thread that refills the spare
    buffer row by row, swaps and announces changes, and several loops that serve
    connections and hand out the announced changes, interleaved step by step. */
module DnsMachine {
  import opened Wrappers
  import opened Words
  import opened RouteData
  import opened Subscriptions

  /** A connection belongs to one loop and remembers what it subscribed to. */
  datatype Conn = Conn(loop: nat, interest: set<Uint64>)

  /** Where the loader is: between reloads, filling the spare buffer, or swapped and
      about to announce the changes. */
  datatype Loader = Resting | Filling(rows: seq<Row>, next: nat, announce: bool) | Announcing

  /** `loads` are the tables that were swapped in so far, and `work` the fetched
      changes a loop has still to send. */
  datatype Dns = Dns(
    data: Grouping, spare: Grouping, loader: Loader, loads: seq<seq<Row>>,
    book: Book, waiting: PushList, work: set<(Int32, Uint64)>, conns: map<Int32, Conn>)

  datatype Step =
    | StartReload(query: Option<seq<Row>>, announce: bool)
    | FillRow
    | SwapBuffers
    | Announce(changes: seq<Uint64>)
    | Connect(fd: Int32, loop: nat)
    | Request(fd: Int32, mod: Uint64)
    | Unsubscribe(fd: Int32, mod: Uint64)
    | Disconnect(fd: Int32)
    | Fetch(loop: nat)
    | Deliver(fd: Int32, mod: Uint64)

  function Start(rows: seq<Row>): Dns {
    Dns(Group(rows), map[], Resting, [rows], map[], map[], {}, map[])
  }

  predicate Enabled(s: Dns, e: Step) {
    match e
    case StartReload(_, _) => s.loader.Resting?
    case FillRow => s.loader.Filling? && s.loader.next < |s.loader.rows|
    case SwapBuffers => s.loader.Filling? && s.loader.next == |s.loader.rows|
    case Announce(_) => s.loader.Announcing?
    case Connect(fd, _) => fd !in s.conns
    case Request(fd, _) => fd in s.conns
    case Unsubscribe(fd, mod) => fd in s.conns && mod in s.conns[fd].interest
    case Disconnect(fd) => fd in s.conns && s.conns[fd].interest == {}
    case Fetch(_) => true
    case Deliver(fd, mod) => (fd, mod) in s.work
  }

  function Listening(s: Dns, loop: nat): set<Int32> {
    set fd | fd in s.conns && s.conns[fd].loop == loop
  }

  function PairsOf(p: PushList): set<(Int32, Uint64)> {
    set fd, mod | fd in p && mod in p[fd] :: (fd, mod)
  }

  function WithInterest(s: Dns, fd: Int32, interest: set<Uint64>): map<Int32, Conn>
    requires fd in s.conns
  {
    s.conns[fd := Conn(s.conns[fd].loop, interest)]
  }

  function Next(s: Dns, e: Step): Dns
    requires Enabled(s, e)
  {
    match e
    case StartReload(query, announce) =>
      s.(spare := map[], loader := if query.Some? then Filling(query.value, 0, announce) else Resting)
    case FillRow =>
      s.(spare := WithRow(s.spare, s.loader.rows[s.loader.next]),
         loader := s.loader.(next := s.loader.next + 1))
    case SwapBuffers =>
      s.(data := s.spare, spare := s.data, loads := s.loads + [s.loader.rows],
         loader := if s.loader.announce then Announcing else Resting)
    case Announce(changes) => s.(waiting := Pushed(s.book, s.waiting, changes), loader := Resting)
    case Connect(fd, loop) => s.(conns := s.conns[fd := Conn(loop, {})])
    case Request(fd, mod) =>
      if mod in s.conns[fd].interest then s
      else s.(conns := WithInterest(s, fd, s.conns[fd].interest + {mod}), book := Subscribed(s.book, mod, fd))
    case Unsubscribe(fd, mod) =>
      s.(conns := WithInterest(s, fd, s.conns[fd].interest - {mod}), book := Unsubscribed(s.book, mod, fd))
    case Disconnect(fd) => s.(conns := s.conns - {fd})
    case Fetch(loop) =>
      s.(waiting := Kept(s.waiting, Listening(s, loop)),
         work := s.work + PairsOf(Taken(s.waiting, Listening(s, loop))))
    case Deliver(fd, mod) => s.(work := s.work - {(fd, mod)})
  }

  /** What a lookup for a module returns in a state. */
  function LookupIn(s: Dns, key: Uint64): set<Uint64> {
    HostsIn(s.data, key)
  }

  // ---------- The invariant ----------

  /** Readers see one complete load; the spare buffer holds the rows filled in so far. */
  predicate Snapshots(s: Dns) {
    && s.loads != [] && s.data == Group(s.loads[|s.loads| - 1])
    && (s.loader.Filling? ==>
          s.loader.next <= |s.loader.rows| && s.spare == Group(s.loader.rows[..s.loader.next]))
  }

  /** The book and the connections' interests mirror each other. */
  ghost predicate Mirrored(s: Dns) {
    && NoEmptyEntries(s.book)
    && forall fd, mod :: fd in Subscribers(s.book, mod) <==> fd in s.conns && mod in s.conns[fd].interest
  }

  lemma NextKeepsSnapshots(s: Dns, e: Step)
    requires Snapshots(s) && Enabled(s, e)
    ensures Snapshots(Next(s, e))
  {
    match e
    case FillRow => GroupExtended(s.loader.rows, s.loader.next);
    case SwapBuffers => assert s.loader.rows[..|s.loader.rows|] == s.loader.rows;
    case _ =>
  }

  lemma NextKeepsMirror(s: Dns, e: Step)
    requires Mirrored(s) && Enabled(s, e)
    ensures Mirrored(Next(s, e))
  {
    var r := Next(s, e);
    if e.Request? || e.Unsubscribe? {
      forall fd, mod ensures fd in Subscribers(r.book, mod) <==> fd in r.conns && mod in r.conns[fd].interest {
        SubscribedExactly(s.book, e.mod, e.fd, mod, fd);
      }
      SubscribedExactly(s.book, e.mod, e.fd, e.mod, e.fd);
    }
  }

  /** No step but the swap changes what any reader sees: not a failing reload, and
      not a reload in progress. */
  lemma ReadersSeeOnlySwaps(s: Dns, e: Step, key: Uint64)
    requires Snapshots(s) && Enabled(s, e)
    ensures !e.SwapBuffers? ==> LookupIn(Next(s, e), key) == LookupIn(s, key)
    ensures e.SwapBuffers? ==> LookupIn(Next(s, e), key) == HostsIn(Group(s.loader.rows), key)
  {
    NextKeepsSnapshots(s, e);
  }

  // ---------- Runs ----------

  /** The state after a run; a step that is not enabled does not happen. */
  function After(rows: seq<Row>, run: seq<Step>): Dns {
    if run == [] then Start(rows)
    else
      var s := After(rows, run[..|run| - 1]);
      if Enabled(s, run[|run| - 1]) then Next(s, run[|run| - 1]) else s
  }

  lemma {:induction false} EveryRunKeepsInvariants(rows: seq<Row>, run: seq<Step>)
    ensures Snapshots(After(rows, run)) && Mirrored(After(rows, run))
  {
    if run != [] {
      var earlier, last := run[..|run| - 1], run[|run| - 1];
      EveryRunKeepsInvariants(rows, earlier);
      if Enabled(After(rows, earlier), last) {
        NextKeepsSnapshots(After(rows, earlier), last);
        NextKeepsMirror(After(rows, earlier), last);
      }
    }
  }

  /** In every run, a lookup for a module returns exactly the hosts that one
      complete load, the latest one swapped in, lists for it. */
  lemma LookupsAreSnapshots(rows: seq<Row>, run: seq<Step>, modid: Int32, cmdid: Int32, ip: Int32, port: Int32)
    ensures var s := After(rows, run);
            s.loads != []
            && (Pack(ip, port) in LookupIn(s, Pack(modid, cmdid))
                <==> Row(modid, cmdid, ip, port) in s.loads[|s.loads| - 1])
  {
    hide After, Mirrored, Group, HostsIn, Pack;
    EveryRunKeepsInvariants(rows, run);
    var s := After(rows, run);
    GroupIsExact(s.loads[|s.loads| - 1], modid, cmdid, ip, port);
  }

  // ---------- What happens to an announced change ----------

  /** Step i announces a change of the module while the connection subscribes to it. */
  predicate AnnouncedAt(rows: seq<Row>, run: seq<Step>, i: int, fd: Int32, mod: Uint64) {
    && 0 <= i < |run| && run[i].Announce? && Enabled(After(rows, run[..i]), run[i])
    && mod in run[i].changes && fd in Subscribers(After(rows, run[..i]).book, mod)
  }

  /** At step j the loop that owns the connection fetches. */
  predicate FetchedAt(rows: seq<Row>, run: seq<Step>, j: int, fd: Int32) {
    0 <= j < |run| && run[j].Fetch? && fd in Listening(After(rows, run[..j]), run[j].loop)
  }

  predicate WaitsSince(rows: seq<Row>, run: seq<Step>, i: int, fd: Int32, mod: Uint64) {
    && AnnouncedAt(rows, run, i, fd, mod)
    && forall j :: i < j < |run| ==> !FetchedAt(rows, run, j, fd)
  }

  ghost predicate Waits(rows: seq<Row>, run: seq<Step>, fd: Int32, mod: Uint64) {
    exists i :: WaitsSince(rows, run, i, fd, mod)
  }

  lemma AnnouncedAtPrefix(rows: seq<Row>, run: seq<Step>, e: Step, i: int, fd: Int32, mod: Uint64)
    requires 0 <= i < |run|
    ensures AnnouncedAt(rows, run + [e], i, fd, mod) <==> AnnouncedAt(rows, run, i, fd, mod)
    ensures FetchedAt(rows, run + [e], i, fd) <==> FetchedAt(rows, run, i, fd)
  {
    assert (run + [e])[..i] == run[..i];
  }

  lemma WaitsExtended(rows: seq<Row>, run: seq<Step>, e: Step, fd: Int32, mod: Uint64)
    ensures var s := After(rows, run);
            Waits(rows, run + [e], fd, mod)
            <==> || (e.Announce? && Enabled(s, e) && mod in e.changes && fd in Subscribers(s.book, mod))
                 || (Waits(rows, run, fd, mod) && !(e.Fetch? && fd in Listening(s, e.loop)))
  {
    var all, n := run + [e], |run|;
    assert all[..n] == run;
    forall i | 0 <= i < n
      ensures AnnouncedAt(rows, all, i, fd, mod) <==> AnnouncedAt(rows, run, i, fd, mod)
      ensures FetchedAt(rows, all, i, fd) <==> FetchedAt(rows, run, i, fd)
    {
      AnnouncedAtPrefix(rows, run, e, i, fd, mod);
    }
    hide After, Enabled, Listening;
    var s := After(rows, run);
    if Waits(rows, all, fd, mod) {
      var i :| WaitsSince(rows, all, i, fd, mod);
      if i < n {
        assert !FetchedAt(rows, all, n, fd);
        assert WaitsSince(rows, run, i, fd, mod);
      }
    }
    if e.Announce? && Enabled(s, e) && mod in e.changes && fd in Subscribers(s.book, mod) {
      assert WaitsSince(rows, all, n, fd, mod);
    }
    if Waits(rows, run, fd, mod) && !(e.Fetch? && fd in Listening(s, e.loop)) {
      var i :| WaitsSince(rows, run, i, fd, mod);
      assert WaitsSince(rows, all, i, fd, mod);
    }
  }

  lemma NextOnWaiting(s: Dns, e: Step, fd: Int32, mod: Uint64)
    requires Enabled(s, e)
    ensures mod in Waiting(Next(s, e).waiting, fd)
       <==> || (e.Announce? && mod in e.changes && fd in Subscribers(s.book, mod))
            || (mod in Waiting(s.waiting, fd) && !(e.Fetch? && fd in Listening(s, e.loop)))
  {
    if e.Announce? { PushedExactly(s.book, s.waiting, e.changes, fd, mod); }
    if e.Fetch? { FetchSplits(s.waiting, Listening(s, e.loop), fd, mod); }
  }

  lemma AfterExtended(rows: seq<Row>, run: seq<Step>, e: Step)
    ensures After(rows, run + [e]) == if Enabled(After(rows, run), e) then Next(After(rows, run), e) else After(rows, run)
  {
    assert (run + [e])[..|run|] == run;
  }

  /** For every run, connection and module: a change waits exactly if it was announced
      while the connection subscribed to it and the connection's loop has not fetched since. */
  lemma {:induction false} WaitingExactly(rows: seq<Row>, run: seq<Step>, fd: Int32, mod: Uint64)
    ensures mod in Waiting(After(rows, run).waiting, fd) <==> Waits(rows, run, fd, mod)
  {
    hide *;
    if run == [] {
      NothingWaits(rows, fd, mod);
    } else {
      var earlier, e := run[..|run| - 1], run[|run| - 1];
      assert earlier + [e] == run;
      WaitingExactly(rows, earlier, fd, mod);
      WaitsExtended(rows, earlier, e, fd, mod);
      AfterExtended(rows, earlier, e);
      if Enabled(After(rows, earlier), e) { NextOnWaiting(After(rows, earlier), e, fd, mod); }
      FetchIsEnabled(After(rows, earlier), e);
    }
  }

  lemma NothingWaits(rows: seq<Row>, fd: Int32, mod: Uint64)
    ensures mod !in Waiting(After(rows, []).waiting, fd) && !Waits(rows, [], fd, mod)
  {
  }

  lemma FetchIsEnabled(s: Dns, e: Step)
    ensures e.Fetch? ==> Enabled(s, e)
  {
  }

  /** A fetch takes what waits for the connections of its own loop, and leaves the rest. */
  lemma FetchTakesOwn(s: Dns, loop: nat, fd: Int32, mod: Uint64)
    ensures var own := fd in s.conns && s.conns[fd].loop == loop;
            var r := Next(s, Fetch(loop));
            && (mod in Waiting(r.waiting, fd) <==> mod in Waiting(s.waiting, fd) && !own)
            && ((fd, mod) in r.work <==> (fd, mod) in s.work || (mod in Waiting(s.waiting, fd) && own))
            && r.book == s.book && r.conns == s.conns && r.data == s.data
  {
    NextOnWaiting(s, Fetch(loop), fd, mod);
    FetchSplits(s.waiting, Listening(s, loop), fd, mod);
  }

  // ---------- Hand-off to the loops ----------

  /** At step j the loop of the connection takes the waiting change. */
  predicate TakenAt(rows: seq<Row>, run: seq<Step>, j: int, fd: Int32, mod: Uint64) {
    FetchedAt(rows, run, j, fd) && mod in Waiting(After(rows, run[..j]).waiting, fd)
  }

  predicate OwedSince(rows: seq<Row>, run: seq<Step>, j: int, fd: Int32, mod: Uint64) {
    TakenAt(rows, run, j, fd, mod) && forall k :: j < k < |run| ==> run[k] != Deliver(fd, mod)
  }

  ghost predicate Owed(rows: seq<Row>, run: seq<Step>, fd: Int32, mod: Uint64) {
    exists j :: OwedSince(rows, run, j, fd, mod)
  }

  lemma OwedExtended(rows: seq<Row>, run: seq<Step>, e: Step, fd: Int32, mod: Uint64)
    ensures var s := After(rows, run);
            Owed(rows, run + [e], fd, mod)
            <==> || (e.Fetch? && fd in Listening(s, e.loop) && mod in Waiting(s.waiting, fd))
                 || (Owed(rows, run, fd, mod) && e != Deliver(fd, mod))
  {
    var all, n := run + [e], |run|;
    assert all[..n] == run;
    forall i | 0 <= i < n
      ensures TakenAt(rows, all, i, fd, mod) <==> TakenAt(rows, run, i, fd, mod)
    {
      assert all[..i] == run[..i];
    }
    hide After, Listening;
    if Owed(rows, all, fd, mod) {
      var j :| OwedSince(rows, all, j, fd, mod);
      if j < n {
        assert all[n] != Deliver(fd, mod);
        forall k | j < k < n ensures run[k] != Deliver(fd, mod) { assert all[k] == run[k]; }
        assert OwedSince(rows, run, j, fd, mod);
      }
    }
    if TakenAt(rows, all, n, fd, mod) { assert OwedSince(rows, all, n, fd, mod); }
    if Owed(rows, run, fd, mod) && e != Deliver(fd, mod) {
      var j :| OwedSince(rows, run, j, fd, mod);
      assert OwedSince(rows, all, j, fd, mod);
    }
  }

  lemma NextOnWork(s: Dns, e: Step, fd: Int32, mod: Uint64)
    requires Enabled(s, e)
    ensures (fd, mod) in Next(s, e).work
       <==> || (e.Fetch? && fd in Listening(s, e.loop) && mod in Waiting(s.waiting, fd))
            || ((fd, mod) in s.work && e != Deliver(fd, mod))
  {
    if e.Fetch? { FetchSplits(s.waiting, Listening(s, e.loop), fd, mod); }
  }

  lemma DeliverIsEnabled(s: Dns, e: Step, fd: Int32, mod: Uint64)
    ensures e == Deliver(fd, mod) && !Enabled(s, e) ==> (fd, mod) !in s.work
  {
  }

  lemma NothingOwed(rows: seq<Row>, fd: Int32, mod: Uint64)
    ensures (fd, mod) !in After(rows, []).work && !Owed(rows, [], fd, mod)
  {
  }

  /** A loop still has to send a change exactly if it took it and has not sent it since. */
  lemma {:induction false} WorkExactly(rows: seq<Row>, run: seq<Step>, fd: Int32, mod: Uint64)
    ensures (fd, mod) in After(rows, run).work <==> Owed(rows, run, fd, mod)
  {
    hide *;
    if run == [] {
      NothingOwed(rows, fd, mod);
    } else {
      var earlier, e := run[..|run| - 1], run[|run| - 1];
      assert earlier + [e] == run;
      WorkExactly(rows, earlier, fd, mod);
      OwedExtended(rows, earlier, e, fd, mod);
      AfterExtended(rows, earlier, e);
      FetchIsEnabled(After(rows, earlier), e);
      if Enabled(After(rows, earlier), e) { NextOnWork(After(rows, earlier), e, fd, mod); }
      DeliverIsEnabled(After(rows, earlier), e, fd, mod);
    }
  }

  lemma NextOnLoads(s: Dns, e: Step)
    requires Enabled(s, e)
    ensures s.loads <= Next(s, e).loads
  {
  }

  lemma {:induction false} LoadsGrow(rows: seq<Row>, run: seq<Step>, i: nat)
    requires i <= |run|
    ensures After(rows, run[..i]).loads <= After(rows, run).loads
    decreases |run|
  {
    if i == |run| {
      assert run[..i] == run;
    } else {
      hide Next, Enabled;
      var earlier, e := run[..|run| - 1], run[|run| - 1];
      LoadsGrow(rows, earlier, i);
      assert earlier[..i] == run[..i];
      if Enabled(After(rows, earlier), e) { NextOnLoads(After(rows, earlier), e); }
    }
  }

  /** A lookup for a key reads a load that is no older than the last one of an earlier state. */
  ghost predicate AnsweredNoOlder(earlier: Dns, s: Dns, key: Uint64) {
    && earlier.loads <= s.loads
    && exists l: nat :: |earlier.loads| - 1 <= l < |s.loads| && LookupIn(s, key) == HostsIn(Group(s.loads[l]), key)
  }

  /** Whatever is sent was announced while the connection subscribed to it, and its
      contents come from the load that was current at that announcement or a later one. */
  lemma DeliveredWasAnnounced(rows: seq<Row>, run: seq<Step>, fd: Int32, mod: Uint64, key: Uint64)
    requires Enabled(After(rows, run), Deliver(fd, mod))
    ensures exists i :: AnnouncedAt(rows, run, i, fd, mod)
                        && AnsweredNoOlder(After(rows, run[..i]), After(rows, run), key)
  {
    WorkExactly(rows, run, fd, mod);
    var j :| OwedSince(rows, run, j, fd, mod);
    WaitingExactly(rows, run[..j], fd, mod);
    var i :| WaitsSince(rows, run[..j], i, fd, mod);
    assert run[..j][..i] == run[..i];
    assert AnnouncedAt(rows, run, i, fd, mod);
    hide After, AnnouncedAt;
    LoadsGrow(rows, run, i);
    EveryRunKeepsInvariants(rows, run);
    LastLoadAnswers(After(rows, run[..i]), After(rows, run), key);
  }

  lemma LastLoadAnswers(earlier: Dns, s: Dns, key: Uint64)
    requires Snapshots(s) && earlier.loads <= s.loads
    ensures AnsweredNoOlder(earlier, s, key)
  {
    var l := |s.loads| - 1;
    assert LookupIn(s, key) == HostsIn(Group(s.loads[l]), key);
  }

  // ---------- Changes that reach a stranger ----------

  /** At step j the connection gives its subscription up, or takes one out. */
  predicate LeavesAt(rows: seq<Row>, run: seq<Step>, j: int, fd: Int32, mod: Uint64) {
    0 <= j < |run| && run[j] == Unsubscribe(fd, mod) && Enabled(After(rows, run[..j]), run[j])
  }

  predicate JoinsAt(rows: seq<Row>, run: seq<Step>, j: int, fd: Int32, mod: Uint64) {
    0 <= j < |run| && run[j] == Request(fd, mod) && Enabled(After(rows, run[..j]), run[j])
  }

  predicate GoneSince(rows: seq<Row>, run: seq<Step>, i: int, j: int, fd: Int32, mod: Uint64) {
    i <= j && LeavesAt(rows, run, j, fd, mod) && forall k :: j < k < |run| ==> !JoinsAt(rows, run, k, fd, mod)
  }

  /** Since step i the subscription was given up and not taken out again. */
  ghost predicate Gone(rows: seq<Row>, run: seq<Step>, i: int, fd: Int32, mod: Uint64) {
    exists j :: GoneSince(rows, run, i, j, fd, mod)
  }

  lemma GoneExtended(rows: seq<Row>, run: seq<Step>, e: Step, i: nat, fd: Int32, mod: Uint64)
    requires i <= |run|
    ensures var s := After(rows, run);
            Gone(rows, run + [e], i, fd, mod)
            <==> || (e == Unsubscribe(fd, mod) && Enabled(s, e))
                 || (Gone(rows, run, i, fd, mod) && !(e == Request(fd, mod) && Enabled(s, e)))
  {
    var all, n := run + [e], |run|;
    assert all[..n] == run;
    forall j | 0 <= j < n
      ensures LeavesAt(rows, all, j, fd, mod) <==> LeavesAt(rows, run, j, fd, mod)
      ensures JoinsAt(rows, all, j, fd, mod) <==> JoinsAt(rows, run, j, fd, mod)
    {
      assert all[..j] == run[..j];
    }
    assert LeavesAt(rows, all, n, fd, mod) <==> e == Unsubscribe(fd, mod) && Enabled(After(rows, run), e);
    assert JoinsAt(rows, all, n, fd, mod) <==> e == Request(fd, mod) && Enabled(After(rows, run), e);
    hide After, Enabled, LeavesAt, JoinsAt;
    if Gone(rows, all, i, fd, mod) {
      var j :| GoneSince(rows, all, i, j, fd, mod);
      LeavesInRun(rows, all, j, fd, mod);
      if j < n { assert GoneSince(rows, run, i, j, fd, mod); }
    }
    if LeavesAt(rows, all, n, fd, mod) { assert GoneSince(rows, all, i, n, fd, mod); }
    if Gone(rows, run, i, fd, mod) && !JoinsAt(rows, all, n, fd, mod) {
      var j :| GoneSince(rows, run, i, j, fd, mod);
      LeavesInRun(rows, run, j, fd, mod);
      assert GoneSince(rows, all, i, j, fd, mod);
    }
  }

  lemma LeavesInRun(rows: seq<Row>, run: seq<Step>, j: int, fd: Int32, mod: Uint64)
    requires LeavesAt(rows, run, j, fd, mod)
    ensures 0 <= j < |run|
  {
  }

  lemma NextOnBook(s: Dns, e: Step, fd: Int32, mod: Uint64)
    requires Mirrored(s) && Enabled(s, e)
    ensures fd in Subscribers(Next(s, e).book, mod)
       <==> e == Request(fd, mod) || (fd in Subscribers(s.book, mod) && e != Unsubscribe(fd, mod))
  {
    if e.Request? || e.Unsubscribe? { SubscribedExactly(s.book, e.mod, e.fd, mod, fd); }
  }

  /** A subscription lasts exactly until it is given up for good. */
  lemma {:induction false} SubscribedUnlessGone(rows: seq<Row>, run: seq<Step>, i: nat, fd: Int32, mod: Uint64)
    requires i <= |run| && fd in Subscribers(After(rows, run[..i]).book, mod)
    ensures fd in Subscribers(After(rows, run).book, mod) <==> !Gone(rows, run, i, fd, mod)
    decreases |run|
  {
    hide *;
    if i == |run| {
      assert run[..i] == run;
      NotYetGone(rows, run, fd, mod);
    } else {
      var earlier, e := run[..|run| - 1], run[|run| - 1];
      assert earlier + [e] == run && earlier[..i] == run[..i];
      SubscribedUnlessGone(rows, earlier, i, fd, mod);
      GoneExtended(rows, earlier, e, i, fd, mod);
      AfterExtended(rows, earlier, e);
      EveryRunKeepsInvariants(rows, earlier);
      if Enabled(After(rows, earlier), e) { NextOnBook(After(rows, earlier), e, fd, mod); }
    }
  }

  lemma NotYetGone(rows: seq<Row>, run: seq<Step>, fd: Int32, mod: Uint64)
    ensures !Gone(rows, run, |run|, fd, mod)
  {
  }

  /** When a change reaches a connection that did not ask for it: exactly if, since an
      announcement it goes back to, the subscription of that descriptor was given up
      and no connection has taken it out again. */
  lemma DeliveredToSubscriber(rows: seq<Row>, run: seq<Step>, fd: Int32, mod: Uint64)
    requires Enabled(After(rows, run), Deliver(fd, mod))
    ensures exists i :: AnnouncedAt(rows, run, i, fd, mod)
                        && (fd in Subscribers(After(rows, run).book, mod) <==> !Gone(rows, run, i, fd, mod))
  {
    DeliveredWasAnnounced(rows, run, fd, mod, mod);
    var i :| AnnouncedAt(rows, run, i, fd, mod);
    hide After;
    SubscribedUnlessGone(rows, run, i, fd, mod);
  }

  /** A connection subscribes and a change is announced to it. */
  function AnnouncedRun(fd: Int32, loop: nat, mod: Uint64): seq<Step> {
    [Connect(fd, loop)] + [Request(fd, mod)] + [StartReload(Some([]), true)] + [SwapBuffers] + [Announce([mod])]
  }

  /** The connection closes before its loop fetches, and another with its descriptor is opened. */
  function StrangerRun(fd: Int32, loop: nat, mod: Uint64): seq<Step> {
    AnnouncedRun(fd, loop, mod)
    + [Unsubscribe(fd, mod)] + [Disconnect(fd)] + [Connect(fd, loop)] + [Fetch(loop)]
  }

  lemma AfterAnnouncedRun(rows: seq<Row>, fd: Int32, loop: nat, mod: Uint64)
    ensures var s := After(rows, AnnouncedRun(fd, loop, mod));
            s.conns == map[fd := Conn(loop, {mod})] && s.book == map[mod := {fd}] && s.waiting == map[fd := {mod}]
  {
    var r1 := [Connect(fd, loop)];
    var r2 := r1 + [Request(fd, mod)];
    var r3 := r2 + [StartReload(Some([]), true)];
    var r4 := r3 + [SwapBuffers];
    assert [] + r1 == r1;
    AfterExtended(rows, [], Connect(fd, loop));
    AfterExtended(rows, r1, Request(fd, mod));
    AfterExtended(rows, r2, StartReload(Some([]), true));
    AfterExtended(rows, r3, SwapBuffers);
    AfterExtended(rows, r4, Announce([mod]));
    ChangeWaits(fd, mod);
    assert After(rows, []) == Start(rows);
    hide After;
    FirstSubscription(fd, mod);
  }

  lemma FirstSubscription(fd: Int32, mod: Uint64)
    ensures Subscribed(map[], mod, fd) == map[mod := {fd}]
  {
    var none: set<Int32> := {};
    assert none + {fd} == {fd};
  }

  /** The new connection is sent the change without ever having asked for anything. */
  lemma StrangerIsSentChange(rows: seq<Row>, fd: Int32, loop: nat, mod: Uint64)
    ensures var s := After(rows, StrangerRun(fd, loop, mod));
            Enabled(s, Deliver(fd, mod)) && fd in s.conns && s.conns[fd].interest == {}
  {
    var r5 := AnnouncedRun(fd, loop, mod);
    var r6 := r5 + [Unsubscribe(fd, mod)];
    var r7 := r6 + [Disconnect(fd)];
    var r8 := r7 + [Connect(fd, loop)];
    AfterAnnouncedRun(rows, fd, loop, mod);
    AfterExtended(rows, r5, Unsubscribe(fd, mod));
    AfterExtended(rows, r6, Disconnect(fd));
    AfterExtended(rows, r7, Connect(fd, loop));
    AfterExtended(rows, r8, Fetch(loop));
    hide After, AnnouncedRun;
    assert After(rows, r6).conns == map[fd := Conn(loop, {})];
    ChangeTaken(After(rows, r8), fd, loop, mod);
  }

  lemma ChangeWaits(fd: Int32, mod: Uint64)
    ensures Pushed(map[mod := {fd}], map[], [mod]) == map[fd := {mod}]
  {
    var b: Book, none: PushList := map[mod := {fd}], map[];
    assert [mod][..0] == [];
    assert Pushed(b, none, [mod]) == PushedOne(b, none, mod);
    assert Waiting(none, fd) + {mod} == {mod};
    assert none.Keys + Subscribers(b, mod) == {fd};
    assert PushedOne(b, none, mod) == map[fd := {mod}];
  }

  lemma ChangeTaken(s: Dns, fd: Int32, loop: nat, mod: Uint64)
    requires s.waiting == map[fd := {mod}] && s.conns == map[fd := Conn(loop, {})]
    ensures (fd, mod) in Next(s, Fetch(loop)).work && Next(s, Fetch(loop)).conns == s.conns
  {
    assert fd in Listening(s, loop);
  }
}
