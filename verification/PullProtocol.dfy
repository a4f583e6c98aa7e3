/** When an entry asks the DNS server for its route, and when the assertion that
    an empty entry is being pulled fails. */
module PullProtocol {
  import opened Wrappers
  import opened Hosts
  import opened LoadBalancer
  import opened Agent

  // ---------- Pull requests are bounded by what provokes them ----------

  /** Pull requests queued for a module over a run that starts without an entry. */
  function PullCount(cfg: Config, run: seq<Event>): nat {
    if run == [] then 0
    else
      var earlier, last := run[..|run| - 1], run[|run| - 1];
      PullCount(cfg, earlier) + if Pulls(cfg, last.now, ModRun(cfg, None, earlier), last.op) then 1 else 0
  }

  function UpdateCount(run: seq<Event>): nat {
    if run == [] then 0
    else UpdateCount(run[..|run| - 1]) + if run[|run| - 1].op.RouteUpdate? then 1 else 0
  }

  function DisconnectCount(run: seq<Event>): nat {
    if run == [] then 0
    else DisconnectCount(run[..|run| - 1]) + if run[|run| - 1].op.Disconnect? then 1 else 0
  }

  /** A pull may be sent from here without any further update or disconnect. */
  function Due(m: Mod): nat {
    if m.None? || m.value.status == IsNew then 1 else 0
  }

  lemma PullStep(cfg: Config, now: int, m: Mod, op: ModOp)
    requires ModInv(cfg, m)
    ensures (if Pulls(cfg, now, m, op) then 1 else 0) + Due(ModStep(cfg, now, m, op))
         <= Due(m) + (if op.RouteUpdate? then 1 else 0) + (if op.Disconnect? then 1 else 0)
  {
    if m.Some? && op != RouteUpdate([]) {
      StepOnView(cfg, now, m.value, op);
      if op.BatchReq? { ReportsNeverPull(op.results); }
    }
  }

  /** For every module and run, through deletion and re-creation of its entry:
      pulls <= 1 + route updates + disconnects. */
  lemma {:induction false} PullBound(cfg: Config, run: seq<Event>)
    ensures PullCount(cfg, run) + Due(ModRun(cfg, None, run)) <= 1 + UpdateCount(run) + DisconnectCount(run)
  {
    if run != [] {
      var earlier, last := run[..|run| - 1], run[|run| - 1];
      PullBound(cfg, earlier);
      PullStep(cfg, last.now, ModRun(cfg, None, earlier), last.op);
    }
  }

  // ---------- The assertion on empty entries ----------

  predicate Unfilled(m: Mod) {
    m.Some? && m.value.hosts == map[]
  }

  /** An entry whose first pull was written off: requests for it would abort. */
  predicate Orphaned(m: Mod) {
    Unfilled(m) && m.value.status == IsNew
  }

  /** Event i is a disconnect that hits an entry still waiting for its first route,
      and nothing later answers, deletes or pulls again for it. */
  predicate LosesFirstPull(cfg: Config, run: seq<Event>, i: int) {
    && 0 <= i < |run|
    && run[i].op.Disconnect?
    && Unfilled(ModRun(cfg, None, run[..i]))
    && (forall j :: i < j < |run| ==>
          !run[j].op.RouteUpdate? && !(run[j].op.ToolRouteReq? && run[j].now > cfg.updateTimo))
  }

  ghost predicate LostFirstPull(cfg: Config, run: seq<Event>) {
    exists i :: LosesFirstPull(cfg, run, i)
  }

  lemma {:induction false} UnfilledHasNoEffectData(cfg: Config, run: seq<Event>)
    ensures Unfilled(ModRun(cfg, None, run)) ==> ModRun(cfg, None, run).value.effectData == 0
  {
    if run != [] {
      var earlier, last := run[..|run| - 1], run[|run| - 1];
      UnfilledHasNoEffectData(cfg, earlier);
      var m := ModRun(cfg, None, earlier);
      if m.Some? && last.op != RouteUpdate([]) {
        StepOnView(cfg, last.now, m.value, last.op);
        EmptyKeys(m.value);
        EmptyKeys(ModStep(cfg, last.now, m, last.op).value);
        if last.op.RouteUpdate? { KeySetOf(last.op.hosts, 0); }
      }
    }
  }

  lemma EmptyKeys(s: Lb)
    ensures s.hosts == map[] <==> s.hosts.Keys == {}
  {
  }

  lemma OrphanStep(cfg: Config, now: int, m: Mod, op: ModOp)
    requires ModInv(cfg, m) && (Unfilled(m) ==> m.value.effectData == 0)
    ensures Orphaned(ModStep(cfg, now, m, op))
       <==> if op.Disconnect? then Unfilled(m)
            else Orphaned(m) && !op.RouteUpdate? && !(op.ToolRouteReq? && now > cfg.updateTimo)
  {
    if m.Some? && op != RouteUpdate([]) {
      StepOnView(cfg, now, m.value, op);
      EmptyKeys(m.value);
      EmptyKeys(ModStep(cfg, now, m, op).value);
      if op.RouteUpdate? { KeySetOf(op.hosts, 0); }
    }
  }

  /** How the condition changes with one more event. */
  lemma LosesFirstPullExtended(cfg: Config, earlier: seq<Event>, last: Event)
    ensures LostFirstPull(cfg, earlier + [last])
       <==> || (last.op.Disconnect? && Unfilled(ModRun(cfg, None, earlier)))
            || (&& LostFirstPull(cfg, earlier)
                && !last.op.RouteUpdate? && !(last.op.ToolRouteReq? && last.now > cfg.updateTimo))
  {
    hide ModRun, Unfilled;
    var run, n := earlier + [last], |earlier|;
    forall i | 0 <= i <= n ensures run[..i] == earlier[..i] {}
    assert run[..n] == earlier && run[n] == last;
    if LostFirstPull(cfg, run) {
      var i :| LosesFirstPull(cfg, run, i);
      if i < n {
        forall j | i < j < n
          ensures !earlier[j].op.RouteUpdate? && !(earlier[j].op.ToolRouteReq? && earlier[j].now > cfg.updateTimo)
        {
          assert run[j] == earlier[j];
        }
        assert LosesFirstPull(cfg, earlier, i);
      }
    }
    if last.op.Disconnect? && Unfilled(ModRun(cfg, None, earlier)) {
      assert LosesFirstPull(cfg, run, n);
    }
    if !last.op.RouteUpdate? && !(last.op.ToolRouteReq? && last.now > cfg.updateTimo) {
      if LostFirstPull(cfg, earlier) {
        var i :| LosesFirstPull(cfg, earlier, i);
        assert LosesFirstPull(cfg, run, i);
      }
    }
  }

  /** Exactly when a request would abort: for every run, an entry is empty and not
      being pulled if and only if a disconnect lost its first pull. */
  lemma {:induction false} OrphanedExactly(cfg: Config, run: seq<Event>)
    ensures Orphaned(ModRun(cfg, None, run)) <==> LostFirstPull(cfg, run)
  {
    hide ModRun, ModStep, LostFirstPull, Orphaned, Unfilled;
    if run == [] {
      NothingLost(cfg);
    } else {
      var earlier, last := run[..|run| - 1], run[|run| - 1];
      assert earlier + [last] == run;
      OrphanedExactly(cfg, earlier);
      LosesFirstPullExtended(cfg, earlier, last);
      OrphanedExtended(cfg, earlier, last);
    }
  }

  lemma NothingLost(cfg: Config)
    ensures !Orphaned(ModRun(cfg, None, [])) && !LostFirstPull(cfg, [])
  {
  }

  lemma OrphanedExtended(cfg: Config, earlier: seq<Event>, last: Event)
    ensures Orphaned(ModRun(cfg, None, earlier + [last]))
       <==> || (last.op.Disconnect? && Unfilled(ModRun(cfg, None, earlier)))
            || (&& Orphaned(ModRun(cfg, None, earlier))
                && !last.op.RouteUpdate? && !(last.op.ToolRouteReq? && last.now > cfg.updateTimo))
  {
    UnfilledHasNoEffectData(cfg, earlier);
    OrphanStep(cfg, last.now, ModRun(cfg, None, earlier), last.op);
    assert (earlier + [last])[..|earlier|] == earlier;
  }

  /** In every run a request aborts exactly if it is one that asserts and the first
      pull of its module was lost. */
  lemma AbortsExactly(cfg: Config, run: seq<Event>, op: ModOp)
    ensures Aborts(ModRun(cfg, None, run), op)
       <==> (op.GetHostReq? || op.CacheRouteReq?) && LostFirstPull(cfg, run)
  {
    hide LostFirstPull, ModRun;
    OrphanedExactly(cfg, run);
  }

  /** So the assertion holds in every run without a disconnect. */
  lemma NoAbortWithoutDisconnect(cfg: Config, run: seq<Event>, op: ModOp)
    requires forall i :: 0 <= i < |run| ==> !run[i].op.Disconnect?
    ensures !Aborts(ModRun(cfg, None, run), op)
  {
    OrphanedExactly(cfg, run);
  }

  /** And it fails on the shortest run with one: a first request, a disconnect, a second request. */
  lemma DisconnectCanAbort(cfg: Config, now: int)
    ensures Aborts(ModRun(cfg, None, [Event(now, GetHostReq), Event(now, Disconnect)]), GetHostReq)
  {
    var run := [Event(now, GetHostReq), Event(now, Disconnect)];
    var first := run[..1];
    assert first[..0] == [];
    assert ModRun(cfg, None, first) == Some(NEW_LB);
    assert LosesFirstPull(cfg, run, 1);
    OrphanedExactly(cfg, run);
  }
}
