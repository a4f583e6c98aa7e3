/** Runs of the whole table, and what one module sees of them. */
module AgentRuns {
  import opened Wrappers
  import opened Words
  import opened Hosts
  import opened LoadBalancer
  import opened Agent
  import opened RouteTable

  /** One request or message for a module, or a reconnect, which concerns all. */
  datatype TableEvent = ForModule(now: int, key: Uint64, op: ModOp) | Reconnected(now: int)

  predicate TableInv(cfg: Config, t: Table) {
    forall key :: key in t ==> Inv(cfg, t[key])
  }

  function TableAfter(cfg: Config, t: Table, e: TableEvent): (r: Table)
    requires TableInv(cfg, t)
    ensures TableInv(cfg, r)
  {
    match e
    case ForModule(now, key, op) => TableStep(cfg, now, t, key, op)
    case Reconnected(now) =>
      ClearedKeepsInv(cfg, t);
      Cleared(t, t.Keys)
  }

  lemma ClearedKeepsInv(cfg: Config, t: Table)
    requires TableInv(cfg, t)
    ensures TableInv(cfg, Cleared(t, t.Keys))
  {
    forall key | key in t ensures Inv(cfg, NotPulling(t[key])) {
      ScalarsKeepInv(cfg, t[key], NotPulling(t[key]));
    }
  }

  function TableRun(cfg: Config, run: seq<TableEvent>): (r: Table)
    ensures TableInv(cfg, r)
  {
    if run == [] then map[]
    else TableAfter(cfg, TableRun(cfg, run[..|run| - 1]), run[|run| - 1])
  }

  /** The events of one module: its own and every reconnect. */
  function EventsOf(run: seq<TableEvent>, key: Uint64): seq<Event> {
    if run == [] then []
    else
      EventsOf(run[..|run| - 1], key)
      + match run[|run| - 1]
        case ForModule(now, k, op) => if k == key then [Event(now, op)] else []
        case Reconnected(now) => [Event(now, Disconnect)]
  }

  lemma ModRunExtended(cfg: Config, run: seq<Event>, e: Event)
    ensures ModRun(cfg, None, run + [e]) == ModStep(cfg, e.now, ModRun(cfg, None, run), e.op)
  {
    assert (run + [e])[..|run|] == run;
  }

  /** Modules do not disturb each other: in every run of the table, each entry is
      that of a run of the module's own events. */
  lemma {:induction false} ModulesAreIndependent(cfg: Config, run: seq<TableEvent>, key: Uint64)
    ensures ModAt(TableRun(cfg, run), key) == ModRun(cfg, None, EventsOf(run, key))
  {
    if run != [] {
      hide ModStep, Inv, ModRun;
      var earlier, last := run[..|run| - 1], run[|run| - 1];
      var t := TableRun(cfg, earlier);
      ModulesAreIndependent(cfg, earlier, key);
      match last
      case ForModule(now, k, op) =>
        if k == key { ModRunExtended(cfg, EventsOf(earlier, key), Event(now, op)); }
        else { assert EventsOf(run, key) == EventsOf(earlier, key); }
      case Reconnected(now) =>
        ModRunExtended(cfg, EventsOf(earlier, key), Event(now, Disconnect));
        ClearedIsDisconnect(cfg, now, t, key);
    }
  }
}
