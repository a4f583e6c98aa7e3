/** One host of a module: its virtual and real counters, its overload flag, and
    the rules by which reported results move it between idle and overloaded.

    `Host` is the value of an `HI` object; `Count`, `Expire` and `HostStep` say
    what a report does to it, and the lemmas below are about those functions.
    The class `HI` holds the same fields and updates them in place. */
module Hosts {
  import opened Words
  import opened Rates

  datatype Settings = Settings(
    initSuccCnt: nat, ovldErrCnt: nat,
    continSuccLim: nat, continErrLim: nat, probeNum: nat,
    updateTimo: int, clearTimo: int, reportTimo: int, ovldWaitLim: int,
    succRate: Rate, errRate: Rate, windErrRate: Rate, windErrLim: nat,
    myIp: Uint32)
  {
    predicate Positive() {
      && initSuccCnt >= 1 && ovldErrCnt >= 1
      && continSuccLim >= 1 && continErrLim >= 1 && probeNum >= 1 && windErrLim >= 1
      && updateTimo >= 1 && clearTimo >= 1 && reportTimo >= 1 && ovldWaitLim >= 1
    }
  }

  /** The configuration and the agent's own ip, with the defaults of the code as witness. */
  type Config = c: Settings | c.Positive()
    witness Settings(270, 5, 10, 10, 10, 15, 15, 15, 300, 0.92, 0.1, 0.7, 2, 0x7F00_0001)

  datatype Host = Host(
    ip: Uint32, port: Int32,
    succ: nat, err: nat, rSucc: nat, rErr: nat, continSucc: nat, continErr: nat,
    overload: bool, windowTs: int, overloadTs: int, windErrCnt: nat)
  {
    function Key(): Uint64 {
      Pack(ip, port)
    }
  }

  /** What can be reported about one host: one call's outcome, or several
      successes or several failures at once. */
  datatype HostOp = Once(ok: bool) | Succs(n: nat) | Errs(n: nat)

  function NewHost(cfg: Config, now: int, ip: Uint32, port: Int32): Host {
    Host(ip, port, cfg.initSuccCnt, 0, 0, 0, 0, 0, false, now, 0, 0)
  }

  function AsIdle(cfg: Config, now: int, h: Host): Host {
    Host(h.ip, h.port, cfg.initSuccCnt, 0, 0, 0, 0, 0, false, now, 0, h.windErrCnt)
  }

  function AsOverloaded(cfg: Config, now: int, h: Host): Host {
    Host(h.ip, h.port, 0, cfg.ovldErrCnt, 0, 0, 0, 0, true, h.windowTs, now, 0)
  }

  // ---------- Invariants of every reachable host ----------

  /** The run-length counters stay below the limits that would have acted on them. */
  predicate Bounded(cfg: Config, h: Host) {
    && (!h.overload ==> h.continErr < cfg.continErrLim)
    && (h.overload ==> h.continSucc < cfg.continSuccLim)
    && h.windErrCnt < cfg.windErrLim
  }

  /** How the virtual counters account for the real ones. */
  predicate Ledger(cfg: Config, h: Host) {
    && (!h.overload ==> h.err == h.rErr && h.succ >= cfg.initSuccCnt + h.rSucc)
    && (h.overload ==> h.succ == h.rSucc && h.err >= cfg.ovldErrCnt + h.rErr)
    && h.continErr <= h.err
  }

  predicate Healthy(cfg: Config, h: Host) {
    Bounded(cfg, h) && Ledger(cfg, h)
  }

  // ---------- What a report does ----------

  /** A closed window is bad when it saw a call and its real failure rate reaches the limit. */
  predicate BadWindow(cfg: Config, rSucc: nat, rErr: nat) {
    rSucc + rErr > 0 && Share(rErr, rSucc) >= cfg.windErrRate
  }

  /** How many results of an n-fold report are used up by the change of state,
      if there are that many: the consecutive limit is looked at first, the rate
      only when n results do not reach that limit. */
  function RecoveryStep(cfg: Config, h: Host, n: nat): nat
    requires h.continSucc < cfg.continSuccLim
  {
    if h.continSucc + n >= cfg.continSuccLim then cfg.continSuccLim - h.continSucc
    else Needed(cfg.succRate, h.err)
  }

  function OverloadStep(cfg: Config, h: Host, n: nat): nat
    requires h.continErr < cfg.continErrLim
  {
    if h.continErr + n >= cfg.continErrLim then cfg.continErrLim - h.continErr
    else Needed(cfg.errRate, h.succ)
  }

  /** A host with one more success (failure) counted, before any test. */
  function Tallied(h: Host, ok: bool): Host {
    if ok then
      h.(succ := h.succ + 1, rSucc := h.rSucc + 1, continSucc := h.continSucc + 1, continErr := 0)
    else
      h.(err := h.err + 1, rErr := h.rErr + 1, continSucc := 0, continErr := h.continErr + 1)
  }

  /** The two count-based tests of a single report. */
  predicate Trips(cfg: Config, h: Host) {
    if h.overload then
      h.succ > 0 && (Share(h.succ, h.err) > cfg.succRate || h.continSucc >= cfg.continSuccLim)
    else
      h.err > 0 && (Share(h.err, h.succ) > cfg.errRate || h.continErr >= cfg.continErrLim)
  }

  /** Counting a report and applying the count-based tests. */
  function Count(cfg: Config, now: int, h: Host, op: HostOp): Host
    requires Bounded(cfg, h)
  {
    match op
    case Once(ok) =>
      var t := Tallied(h, ok);
      if ok == h.overload && Trips(cfg, t) then
        if ok then AsIdle(cfg, now, t) else AsOverloaded(cfg, now, t)
      else t
    case Succs(n) =>
      var t := h.(rSucc := h.rSucc + n, continSucc := h.continSucc + n, continErr := 0);
      if h.overload && n >= RecoveryStep(cfg, h, n) then
        AsIdle(cfg, now, t).(succ := cfg.initSuccCnt + (n - RecoveryStep(cfg, h, n)))
      else t.(succ := h.succ + n)
    case Errs(n) =>
      var t := h.(rErr := h.rErr + n, continSucc := 0, continErr := h.continErr + n);
      if !h.overload && n >= OverloadStep(cfg, h, n) then
        AsOverloaded(cfg, now, t).(err := cfg.ovldErrCnt + (n - OverloadStep(cfg, h, n)))
      else t.(err := h.err + n)
  }

  /** Whether an idle host's window has run out. */
  predicate WindowOver(cfg: Config, now: int, h: Host) {
    !h.overload && now - h.windowTs >= cfg.clearTimo
  }

  /** The host at the end of its window: overloaded after too many bad windows in a row. */
  function CloseWindow(cfg: Config, now: int, h: Host): Host {
    var bad := if BadWindow(cfg, h.rSucc, h.rErr) then h.windErrCnt + 1 else 0;
    if bad >= cfg.windErrLim then AsOverloaded(cfg, now, h)
    else AsIdle(cfg, now, h.(windErrCnt := bad))
  }

  /** The time-based rules applied at the end of every report. */
  function Expire(cfg: Config, now: int, h: Host): Host {
    if WindowOver(cfg, now, h) then CloseWindow(cfg, now, h)
    else if h.overload && now - h.overloadTs >= cfg.ovldWaitLim then AsIdle(cfg, now, h)
    else h
  }

  function HostStep(cfg: Config, now: int, h: Host, op: HostOp): Host
    requires Bounded(cfg, h)
  {
    Expire(cfg, now, Count(cfg, now, h, op))
  }

  // ---------- Properties of every report ----------

  /** No clock rule acts on a host that has already reacted to its counts at this instant. */
  predicate Recent(cfg: Config, now: int, h: Host) {
    if h.overload then now - h.overloadTs < cfg.ovldWaitLim else now - h.windowTs < cfg.clearTimo
  }

  lemma CountKeepsHealth(cfg: Config, now: int, h: Host, op: HostOp)
    requires Healthy(cfg, h)
    ensures var c := Count(cfg, now, h, op); Healthy(cfg, c) && c.ip == h.ip && c.port == h.port
  {
    match op
    case Once(ok) =>
    case Succs(n) =>
      if h.overload && h.continSucc + n >= cfg.continSuccLim {
        assert n >= RecoveryStep(cfg, h, n);
      }
    case Errs(n) =>
      if !h.overload && h.continErr + n >= cfg.continErrLim {
        assert n >= OverloadStep(cfg, h, n);
      }
  }

  /** Ledger and limits hold after any report of any kind and size. */
  lemma StepKeepsHealth(cfg: Config, now: int, h: Host, op: HostOp)
    requires Healthy(cfg, h)
    ensures Healthy(cfg, HostStep(cfg, now, h, op))
    ensures HostStep(cfg, now, h, op).Key() == h.Key()
  {
    CountKeepsHealth(cfg, now, h, op);
  }

  /** Freshness: once reported on, a host is inside its window or its waiting time. */
  lemma StepIsRecent(cfg: Config, now: int, h: Host, op: HostOp)
    requires Bounded(cfg, h)
    ensures Recent(cfg, now, HostStep(cfg, now, h, op))
  {
  }

  /** A host whose flag was changed by its counts is left alone by the clock rules:
      one report changes the flag at most once. */
  lemma FlipIsFinal(cfg: Config, now: int, h: Host, op: HostOp)
    requires Bounded(cfg, h)
    requires Count(cfg, now, h, op).overload != h.overload
    ensures HostStep(cfg, now, h, op) == Count(cfg, now, h, op)
  {
  }

  // ---------- The mutable object ----------

  class HI {
    const ip: Uint32
    const port: Int32
    var succ: nat
    var err: nat
    var rSucc: nat
    var rErr: nat
    var continSucc: nat
    var continErr: nat
    var overload: bool
    var windowTs: int
    var overloadTs: int
    var windErrCnt: nat

    function Value(): Host
      reads this
    {
      Host(ip, port, succ, err, rSucc, rErr, continSucc, continErr, overload, windowTs, overloadTs, windErrCnt)
    }

    function Key(): Uint64 {
      Pack(ip, port)
    }

    constructor (cfg: Config, now: int, myIp: Uint32, myPort: Int32)
      ensures Value() == NewHost(cfg, now, myIp, myPort)
    {
      ip, port := myIp, myPort;
      succ, err, rSucc, rErr := cfg.initSuccCnt, 0, 0, 0;
      continSucc, continErr := 0, 0;
      overload, overloadTs, windErrCnt := false, 0, 0;
      windowTs := now;
    }

    /** Counts one call's outcome. */
    method Tally(ok: bool)
      modifies this
      ensures Value() == Tallied(old(Value()), ok)
    {
      if ok {
        succ, rSucc := succ + 1, rSucc + 1;
        continSucc, continErr := continSucc + 1, 0;
      } else {
        err, rErr := err + 1, rErr + 1;
        continSucc, continErr := 0, continErr + 1;
      }
    }

    /** Counts the window that is being closed; says whether there were too many bad ones. */
    method CheckWindow(cfg: Config) returns (tooMany: bool)
      modifies this`windErrCnt
      ensures windErrCnt == if BadWindow(cfg, rSucc, rErr) then old(windErrCnt) + 1 else 0
      ensures tooMany <==> windErrCnt >= cfg.windErrLim
    {
      if rSucc + rErr == 0 {
        windErrCnt := 0;
        return false;
      }
      if Share(rErr, rSucc) >= cfg.windErrRate {
        windErrCnt := windErrCnt + 1;
        return windErrCnt >= cfg.windErrLim;
      }
      windErrCnt := 0;
      return false;
    }

    /** The tests of a batch of successes on an overloaded host: whether it
        recovers, and how many of the successes are left over. */
    method TestSuccesses(cfg: Config, succCnt: nat, ghost before: Host) returns (ifIdle: bool, leftSuccCnt: nat)
      requires before.continSucc < cfg.continSuccLim && before.err == err
      requires continSucc == before.continSucc + succCnt
      ensures ifIdle <==> succCnt >= RecoveryStep(cfg, before, succCnt)
      ensures leftSuccCnt <= succCnt
      ensures leftSuccCnt == if ifIdle then succCnt - RecoveryStep(cfg, before, succCnt) else succCnt
    {
      ifIdle, leftSuccCnt := false, succCnt;
      if continSucc >= cfg.continSuccLim {
        leftSuccCnt := continSucc - cfg.continSuccLim;
        ifIdle := true;
      }
      if !ifIdle {
        var needSucc := Needed(cfg.succRate, err);
        if succCnt >= needSucc {
          leftSuccCnt := succCnt - needSucc;
          ifIdle := true;
        }
      }
    }

    /** The tests of a batch of failures on an idle host. */
    method TestFailures(cfg: Config, errCnt: nat, ghost before: Host) returns (ifOverload: bool, leftErrCnt: nat)
      requires before.continErr < cfg.continErrLim && before.succ == succ
      requires continErr == before.continErr + errCnt
      ensures ifOverload <==> errCnt >= OverloadStep(cfg, before, errCnt)
      ensures leftErrCnt <= errCnt
      ensures leftErrCnt == if ifOverload then errCnt - OverloadStep(cfg, before, errCnt) else errCnt
    {
      ifOverload, leftErrCnt := false, errCnt;
      if continErr >= cfg.continErrLim {
        leftErrCnt := continErr - cfg.continErrLim;
        ifOverload := true;
      }
      if !ifOverload {
        var needErr := Needed(cfg.errRate, succ);
        if errCnt >= needErr {
          leftErrCnt := errCnt - needErr;
          ifOverload := true;
        }
      }
    }

    method ResetIdle(cfg: Config, now: int)
      modifies this
      ensures Value() == AsIdle(cfg, now, old(Value()))
    {
      succ := cfg.initSuccCnt;
      err, rSucc, rErr := 0, 0, 0;
      continSucc, continErr := 0, 0;
      overload := false;
      windowTs := now;
      overloadTs := 0;
    }

    method SetOverload(cfg: Config, now: int)
      modifies this
      ensures Value() == AsOverloaded(cfg, now, old(Value()))
    {
      succ := 0;
      err := cfg.ovldErrCnt;
      rSucc, rErr := 0, 0;
      continSucc, continErr := 0, 0;
      overload := true;
      overloadTs := now;
      windErrCnt := 0;
    }
  }
}
