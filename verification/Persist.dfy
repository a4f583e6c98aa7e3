/** Writing all routes of an agent to its backup file, and the client's reader of
    the three files, used when the agent is down. */
module Persist {
  import opened Wrappers
  import opened Words
  import opened Sequences
  import opened Hosts
  import opened LoadBalancer
  import opened Balancer
  import opened RouteTable
  import opened RouteText

  /** The entries name every host of every module of the table once. */
  ghost predicate Saves(entries: seq<Entry>, t: Table) {
    && NoDuplicates(entries)
    && forall e :: e in entries <==> Pack(e.modid, e.cmdid) in t && Pack(e.ip, e.port) in t[Pack(e.modid, e.cmdid)].hosts
  }

  // ---------- Reading ----------

  type Routes = map<Uint64, seq<Addr>>

  function RouteOf(r: Routes, key: Uint64): seq<Addr> {
    if key in r then r[key] else []
  }

  function WithEntry(r: Routes, e: Entry): Routes {
    r[Pack(e.modid, e.cmdid) := RouteOf(r, Pack(e.modid, e.cmdid)) + [Addr(e.ip, e.port)]]
  }

  /** The reader's table after some entries, oldest first. */
  function WithEntries(r: Routes, entries: seq<Entry>): Routes {
    if entries == [] then r else WithEntry(WithEntries(r, entries[..|entries| - 1]), entries[|entries| - 1])
  }

  lemma WithNoEntries(r: Routes)
    ensures WithEntries(r, []) == r
  {
  }

  lemma {:induction false} WithEntriesConcat(r: Routes, a: seq<Entry>, b: seq<Entry>)
    ensures WithEntries(WithEntries(r, a), b) == WithEntries(r, a + b)
  {
    if b == [] {
      assert a + b == a;
    } else {
      var n := |b| - 1;
      WithEntriesConcat(r, a, b[..n]);
      assert (a + b)[..|a + b| - 1] == a + b[..n];
    }
  }

  /** Reading distinct entries lists exactly their addresses, each once per module;
      a module is known if and only if it has an entry. */
  lemma {:induction false} ReaderIsExact(entries: seq<Entry>, modid: Int32, cmdid: Int32)
    requires NoDuplicates(entries)
    ensures var route := RouteOf(WithEntries(map[], entries), Pack(modid, cmdid));
            && NoDuplicates(route)
            && (forall a :: a in route <==> Entry(modid, cmdid, a.ip, a.port) in entries)
            && (Pack(modid, cmdid) in WithEntries(map[], entries) <==> route != [])
  {
    if entries != [] {
      var earlier, last := entries[..|entries| - 1], entries[|entries| - 1];
      assert entries == earlier + [last];
      ReaderIsExact(earlier, modid, cmdid);
      if Pack(last.modid, last.cmdid) == Pack(modid, cmdid) {
        PackInjective(last.modid, last.cmdid, modid, cmdid);
        assert last !in earlier;
      }
      var route := RouteOf(WithEntries(map[], entries), Pack(modid, cmdid));
      forall a ensures a in route <==> Entry(modid, cmdid, a.ip, a.port) in entries {}
    }
  }

  /** A backup file for a reader: missing, or its text and what the reader's
      variables hold before the first line. */
  datatype Backup = Missing | Opened(text: string, held: Entry)

  /** A file on which the reader never comes to an end has no entries to speak of. */
  function EntriesIn(file: Backup): Option<seq<Entry>> {
    match file
    case Missing => Some([])
    case Opened(text, held) => ReadAll(text, held)
  }

  function AllEntries(files: (Backup, Backup, Backup)): Option<seq<Entry>> {
    var (a, b, c) := (EntriesIn(files.0), EntriesIn(files.1), EntriesIn(files.2));
    if a.None? || b.None? || c.None? then None else Some(a.value + b.value + c.value)
  }

  /** What the reader ends up with, if it ends. */
  function ReadRoutes(files: (Backup, Backup, Backup)): Option<Routes> {
    var entries := AllEntries(files);
    if entries.None? then None else Some(WithEntries(map[], entries.value))
  }

  /** `Endless` stands for a call that does not return. */
  datatype FileReply = Endless | Found(host: Option<Addr>)

  function AnswerFrom(route: Routes, key: Uint64, pick: nat): FileReply {
    var known := RouteOf(route, key);
    Found(if known == [] then None else Some(known[pick % |known|]))
  }

  /** A module is answered with one of its own hosts, each of which some choice takes;
      a module without any is answered with none. */
  lemma AnswerIsOwnHost(route: Routes, key: Uint64, pick: nat)
    ensures AnswerFrom(route, key, pick).Found?
    ensures AnswerFrom(route, key, pick).host.None? <==> RouteOf(route, key) == []
    ensures forall a :: a in RouteOf(route, key) ==> exists p: nat :: AnswerFrom(route, key, p) == Found(Some(a))
    ensures forall a :: AnswerFrom(route, key, pick) == Found(Some(a)) ==> key in route && a in route[key]
  {
    forall a | a in RouteOf(route, key) ensures exists p: nat :: AnswerFrom(route, key, p) == Found(Some(a)) {
      var p: nat :| p < |RouteOf(route, key)| && RouteOf(route, key)[p] == a;
      assert AnswerFrom(route, key, p) == Found(Some(a));
    }
  }

  /** The client's reader. */
  class StaticRoute {
    var route: Routes

    ghost predicate Valid()
      reads this
    {
      forall key :: key in route ==> route[key] != []
    }

    constructor ()
      ensures Valid() && route == map[]
    {
      route := map[];
    }

    /** Appends a line's host to its module. */
    method Append(e: Entry)
      modifies this
      ensures route == WithEntry(old(route), e)
    {
      hide Pack;
      var key := Pack(e.modid, e.cmdid);
      if key !in route {
        route := route[key := []];
      }
      route := route[key := route[key] + [Addr(e.ip, e.port)]];
    }

    /** Appends the lines of one file; a missing file is skipped. */
    method ReadFile(file: Backup) returns (ends: bool)
      modifies this
      ensures ends <==> EntriesIn(file).Some?
      ensures ends ==> route == WithEntries(old(route), EntriesIn(file).value)
    {
      hide ReadFields, WithEntries, WithEntry;
      WithNoEntries(route);
      if file.Missing? { return true; }
      ghost var seen := [];
      var rest := file.text;
      var line := ReadFields(rest, file.held);
      ghost var held := file.held;
      PrependNothing(ReadAll(rest, held));
      while line.Line?
        invariant line == ReadFields(rest, held)
        invariant route == WithEntries(old(route), seen)
        invariant ReadAll(file.text, file.held) == Prepended(seen, ReadAll(rest, held))
        decreases |rest|
      {
        Append(line.entry);
        OneEntryMore(old(route), seen, line.entry);
        ReadLine(rest, held, seen);
        seen := seen + [line.entry];
        rest, held := line.rest, line.entry;
        line := ReadFields(rest, line.entry);
      }
      ReadStops(rest, held, seen);
      ends := line.AtEnd?;
    }

    /** A host of a module from the files, which are read into an empty table only;
        `pick` is the random choice. */
    method GetHost(modid: Int32, cmdid: Int32, files: (Backup, Backup, Backup), pick: nat) returns (r: FileReply)
      requires Valid()
      modifies this
      ensures var from := if old(route) != map[] then Some(old(route)) else ReadRoutes(files);
              if from.None? then r == Endless
              else Valid() && route == from.value && r == AnswerFrom(route, Pack(modid, cmdid), pick)
    {
      hide Pack, EntriesIn, WithEntries;
      if route == map[] {
        var ends := ReadFile(files.0);
        if !ends { return Endless; }
        ends := ReadFile(files.1);
        if !ends { return Endless; }
        ends := ReadFile(files.2);
        if !ends { return Endless; }
        ghost var a, b, c := EntriesIn(files.0).value, EntriesIn(files.1).value, EntriesIn(files.2).value;
        WithEntriesConcat(map[], a, b);
        WithEntriesConcat(map[], a + b, c);
        NoEmptyRoutes(a + b + c);
      }
      var key := Pack(modid, cmdid);
      if key !in route { return Found(None); }
      var known := route[key];
      r := Found(Some(known[pick % |known|]));
    }

    method FreeData()
      modifies this
      ensures Valid() && route == map[]
    {
      route := map[];
    }
  }

  lemma OneEntryMore(r: Routes, entries: seq<Entry>, e: Entry)
    ensures WithEntries(r, entries + [e]) == WithEntry(WithEntries(r, entries), e)
  {
    assert (entries + [e])[..|entries|] == entries;
  }

  lemma PrependNothing(entries: Option<seq<Entry>>)
    ensures Prepended([], entries) == entries
  {
    if entries.Some? { assert [] + entries.value == entries.value; }
  }

  lemma ReadStops(rest: string, held: Entry, seen: seq<Entry>)
    requires !ReadFields(rest, held).Line?
    ensures Prepended(seen, ReadAll(rest, held)) == if ReadFields(rest, held).AtEnd? then Some(seen) else None
  {
    hide ReadFields;
    assert seen + [] == seen;
  }

  lemma ReadLine(rest: string, held: Entry, seen: seq<Entry>)
    requires ReadFields(rest, held).Line?
    ensures var line := ReadFields(rest, held);
            Prepended(seen, ReadAll(rest, held)) == Prepended(seen + [line.entry], ReadAll(line.rest, line.entry))
  {
    hide ReadFields;
    var line := ReadFields(rest, held);
    var more := ReadAll(line.rest, line.entry);
    if more.Some? { assert seen + ([line.entry] + more.value) == seen + [line.entry] + more.value; }
  }

  lemma {:induction false} NoEmptyRoutes(entries: seq<Entry>)
    ensures forall key :: key in WithEntries(map[], entries) ==> WithEntries(map[], entries)[key] != []
  {
    if entries != [] { NoEmptyRoutes(entries[..|entries| - 1]); }
  }

  // ---------- Round trip ----------

  /** Files of agents with different modules save the union of their tables. */
  lemma SavesUnion(a: seq<Entry>, b: seq<Entry>, t: Table, u: Table)
    requires Saves(a, t) && Saves(b, u) && t.Keys !! u.Keys
    ensures Saves(a + b, t + u)
  {
    ConcatWithoutDuplicates(a, b);
  }

  lemma SavedRoute(entries: seq<Entry>, t: Table, modid: Int32, cmdid: Int32)
    requires Saves(entries, t)
    ensures var key := Pack(modid, cmdid);
            var route := RouteOf(WithEntries(map[], entries), key);
            && NoDuplicates(route)
            && (forall a :: a in route <==> key in t && a.Key() in t[key].hosts)
            && (key in WithEntries(map[], entries) <==> route != [])
  {
    hide WithEntries, RouteOf, Pack, NoDuplicates;
    ReaderIsExact(entries, modid, cmdid);
  }

  /** What three tables with different modules have written is read back exactly:
      every module of any of them has each of its hosts once, and no other module is known. */
  lemma ThreeFilesRoundTrip(e1: seq<Entry>, e2: seq<Entry>, e3: seq<Entry>, t1: Table, t2: Table, t3: Table,
                            files: (Backup, Backup, Backup), modid: Int32, cmdid: Int32)
    requires Saves(e1, t1) && Saves(e2, t2) && Saves(e3, t3)
    requires t1.Keys !! t2.Keys && t1.Keys !! t3.Keys && t2.Keys !! t3.Keys
    requires Holds(files.0, e1) && Holds(files.1, e2) && Holds(files.2, e3)
    ensures ReadRoutes(files).Some?
    ensures var key, t := Pack(modid, cmdid), t1 + t2 + t3;
            var route := RouteOf(ReadRoutes(files).value, key);
            && NoDuplicates(route)
            && (forall a :: a in route <==> key in t && a.Key() in t[key].hosts)
            && (key in ReadRoutes(files).value <==> route != [])
  {
    ReadsPrinted(files.0, e1);
    ReadsPrinted(files.1, e2);
    ReadsPrinted(files.2, e3);
    hide Saves, WithEntries, RouteOf, Holds, EntriesIn, Pack, NoDuplicates;
    SavesUnion(e1, e2, t1, t2);
    SavesUnion(e1 + e2, e3, t1 + t2, t3);
    SavedRoute(e1 + e2 + e3, t1 + t2 + t3, modid, cmdid);
  }

  /** The file was written with these entries, or never. */
  predicate Holds(file: Backup, entries: seq<Entry>) {
    match file
    case Missing => entries == []
    case Opened(text, _) => text == PrintAll(entries)
  }

  lemma ReadsPrinted(file: Backup, entries: seq<Entry>)
    requires Holds(file, entries)
    ensures EntriesIn(file) == Some(entries)
  {
    if file.Opened? {
      assert "" + PrintAll(entries) == PrintAll(entries);
      ReadsWhatWasPrinted("", entries, file.held);
    }
  }

  // ---------- Writing ----------

  /** A file opened for writing. */
  class TextFile {
    var text: string

    constructor ()
      ensures text == ""
    {
      text := "";
    }
  }

  lemma PrintAllConcat(a: seq<Entry>, b: seq<Entry>)
    ensures PrintAll(a + b) == PrintAll(a) + PrintAll(b)
  {
    hide PrintFields;
    if a == [] {
      assert a + b == b;
    } else {
      assert (a + b)[0] == a[0] && (a + b)[1..] == a[1..] + b;
      PrintAllConcat(a[1..], b);
    }
  }

  lemma PrintAllOne(e: Entry)
    ensures PrintAll([e]) == PrintFields(e) + "\n"
  {
    assert PrintAll([e][1..]) == "";
  }

  /** The entries name every host of one module once. */
  ghost predicate SavesModule(entries: seq<Entry>, modid: Int32, cmdid: Int32, s: Lb) {
    && NoDuplicates(entries)
    && forall e :: e in entries <==> e.modid == modid && e.cmdid == cmdid && Pack(e.ip, e.port) in s.hosts
  }

  /** Writes a line per host. */
  method WriteHosts(list: seq<HI>, modid: Int32, cmdid: Int32, fp: TextFile)
    modifies fp
    ensures fp.text == old(fp.text) + PrintAll(EntriesOf(list, modid, cmdid))
  {
    hide PrintAll, PrintFields;
    ghost var entries := EntriesOf(list, modid, cmdid);
    PrintAllNone();
    for i := 0 to |list|
      invariant fp.text == old(fp.text) + PrintAll(entries[..i])
    {
      var hi := list[i];
      var e := Entry(modid, cmdid, ToInt32(hi.ip), hi.port);
      PrintAllConcat(entries[..i], [e]);
      PrintAllOne(e);
      assert entries[..i + 1] == entries[..i] + [e];
      fp.text := fp.text + (PrintFields(e) + "\n");
    }
    assert entries[..|list|] == entries;
  }

  lemma PrintAllNone()
    ensures PrintAll([]) == ""
  {
  }

  /** Writes one module's hosts, in the order of its map. */
  method PersistModule(lb: LB, fp: TextFile) returns (ghost entries: seq<Entry>)
    requires lb.Valid()
    modifies fp
    ensures SavesModule(entries, lb.modid, lb.cmdid, lb.State())
    ensures fp.text == old(fp.text) + PrintAll(entries)
  {
    hide *;
    ghost var s := lb.State();
    var list := lb.GetRoute();
    RouteSaves(lb, list);
    entries := EntriesOf(list, lb.modid, lb.cmdid);
    ApartFromText(lb, fp);
    WriteHosts(list, lb.modid, lb.cmdid, fp);
    assert lb.State() == s;
  }

  lemma RouteSaves(lb: LB, list: seq<HI>)
    requires lb.Valid()
    requires NoDuplicates(KeysOf(list)) && forall k :: k in KeysOf(list) <==> k in lb.hostMap
    ensures SavesModule(EntriesOf(list, lb.modid, lb.cmdid), lb.modid, lb.cmdid, lb.State())
  {
    hide LB.Valid, LB.State, SavesModule, Inv;
    lb.Facts();
    EntriesOfSaves(list, lb.modid, lb.cmdid, lb.State());
  }

  lemma ApartFromText(lb: LB, fp: TextFile)
    ensures forall h :: h in lb.hostMap.Values ==> h as object != fp
  {
  }

  function EntriesOf(list: seq<HI>, modid: Int32, cmdid: Int32): (r: seq<Entry>)
    ensures |r| == |list|
    ensures forall i :: 0 <= i < |r| ==> r[i] == Entry(modid, cmdid, ToInt32(list[i].ip), list[i].port)
  {
    seq(|list|, i requires 0 <= i < |list| => Entry(modid, cmdid, ToInt32(list[i].ip), list[i].port))
  }

  lemma EntriesOfSaves(list: seq<HI>, modid: Int32, cmdid: Int32, s: Lb)
    requires NoDuplicates(KeysOf(list)) && forall k :: k in KeysOf(list) <==> k in s.hosts
    ensures SavesModule(EntriesOf(list, modid, cmdid), modid, cmdid, s)
  {
    var entries, keys := EntriesOf(list, modid, cmdid), KeysOf(list);
    forall i | 0 <= i < |list| ensures Pack(entries[i].ip, entries[i].port) == keys[i] {
      KeyIsOfAddr(list[i]);
      KeyOfAddrOf(keys[i]);
    }
    forall e
      ensures e in entries <==> e.modid == modid && e.cmdid == cmdid && Pack(e.ip, e.port) in s.hosts
    {
      if e in entries {
        var i :| 0 <= i < |entries| && entries[i] == e;
        assert keys[i] in keys;
      }
      if e.modid == modid && e.cmdid == cmdid && Pack(e.ip, e.port) in s.hosts {
        var i :| 0 <= i < |keys| && keys[i] == Pack(e.ip, e.port);
        PackInjective(e.ip, e.port, entries[i].ip, entries[i].port);
        assert entries[i] in entries;
      }
    }
  }

  /** Writes all modules of a table to an opened file, which opening has emptied. */
  method WriteTable(agent: RouteLB, fp: TextFile) returns (ghost entries: seq<Entry>)
    requires agent.Valid()
    modifies fp
    ensures Saves(entries, agent.State())
    ensures fp.text == PrintAll(entries)
  {
    hide RouteLB.Valid, RouteLB.State, LB.Valid, LB.State, PrintAll, Saves, SavesModule;
    ghost var t := agent.State();
    assert fp as object !in agent.Repr();
    fp.text := "";
    entries := [];
    PrintAllNone();
    var left := agent.routeMap.Keys;
    SavesNothing(agent);
    while left != {}
      invariant left <= agent.routeMap.Keys
      invariant agent.Valid() && agent.State() == t
      invariant Saves(entries, t - left)
      invariant fp.text == PrintAll(entries)
      decreases left
    {
      var key :| key in left;
      agent.EntryIsKnown(key);
      ghost var more := PersistModule(agent.routeMap[key], fp);
      PrintAllConcat(entries, more);
      SavesOneMore(entries, more, t, left, key, agent.routeMap[key].modid, agent.routeMap[key].cmdid);
      entries := entries + more;
      left := left - {key};
    }
    assert t - {} == t;
  }

  /** The file of the table with this id, if there is one and it could be opened. */
  function FileOf(id: int, handles: (TextFile?, TextFile?, TextFile?)): TextFile? {
    match id
    case 1 => handles.0
    case 2 => handles.1
    case 3 => handles.2
    case _ => null
  }

  /** Writes the table to its own file and to no other; a file that cannot be opened
      is left out. */
  method PersistRoute(agent: RouteLB, id: int, handles: (TextFile?, TextFile?, TextFile?))
    returns (ghost entries: seq<Entry>)
    requires agent.Valid()
    modifies if FileOf(id, handles) != null then {FileOf(id, handles)} else {}
    ensures FileOf(id, handles)
         == if id == 1 then handles.0 else if id == 2 then handles.1 else if id == 3 then handles.2 else null
    ensures FileOf(id, handles) != null ==>
              Saves(entries, agent.State()) && FileOf(id, handles).text == PrintAll(entries)
  {
    entries := [];
    var fp: TextFile? := null;
    match id {
      case 1 => fp := handles.0;
      case 2 => fp := handles.1;
      case 3 => fp := handles.2;
      case _ =>
    }
    if fp != null {
      hide RouteLB.Valid, RouteLB.State, Saves, PrintAll;
      entries := WriteTable(agent, fp);
    }
  }

  lemma SavesNothing(agent: RouteLB)
    requires agent.Valid()
    ensures agent.State().Keys == agent.routeMap.Keys
    ensures Saves([], agent.State() - agent.routeMap.Keys)
  {
    assert agent.State().Keys == agent.routeMap.Keys;
  }

  lemma SavesOneMore(entries: seq<Entry>, more: seq<Entry>, t: Table, left: set<Uint64>, key: Uint64,
                     modid: Int32, cmdid: Int32)
    requires key in left && key in t && Pack(modid, cmdid) == key
    requires Saves(entries, t - left) && SavesModule(more, modid, cmdid, t[key])
    ensures Saves(entries + more, t - (left - {key}))
  {
    forall e ensures e in more <==> Pack(e.modid, e.cmdid) == key && Pack(e.ip, e.port) in t[key].hosts {
      if Pack(e.modid, e.cmdid) == key { PackInjective(e.modid, e.cmdid, modid, cmdid); }
    }
    ConcatWithoutDuplicates(entries, more);
  }
}
