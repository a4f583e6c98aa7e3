/** The rules of a report in plain numbers: when it changes a host's flag, and what
    every field holds afterwards. Shares are compared by cross-multiplication. */
module HostRules {
  import opened Words
  import opened Rates
  import opened Hosts

  /** The successes and failures that a report brings. */
  function Succeeded(op: HostOp): nat {
    match op
    case Once(ok) => if ok then 1 else 0
    case Succs(n) => n
    case Errs(_) => 0
  }

  function Failed(op: HostOp): nat {
    match op
    case Once(ok) => if ok then 0 else 1
    case Succs(_) => 0
    case Errs(n) => n
  }

  /** A report of successes ends a run of failures, and the other way round. */
  predicate IsSuccess(op: HostOp) {
    op.Succs? || op == Once(true)
  }

  predicate Reaches(part: nat, rest: nat, rate: Rate) {
    part as real * (1.0 - rate) >= rate * rest as real
  }

  predicate Exceeds(part: nat, rest: nat, rate: Rate) {
    part as real * (1.0 - rate) > rate * rest as real
  }

  /** What a window has seen is bad: some call, and a share of failures that reaches the limit. */
  lemma BadWindowMeans(cfg: Config, rSucc: nat, rErr: nat)
    ensures BadWindow(cfg, rSucc, rErr) <==> rSucc + rErr >= 1 && Reaches(rErr, rSucc, cfg.windErrRate)
  {
    if rSucc + rErr > 0 { ShareCross(cfg.windErrRate, rErr, rSucc); }
  }

  /** The failures overload an idle host. */
  predicate FailuresOverload(cfg: Config, h: Host, op: HostOp) {
    match op
    case Once(ok) =>
      !ok && (Exceeds(h.err + 1, h.succ, cfg.errRate) || h.continErr + 1 >= cfg.continErrLim)
    case Succs(_) => false
    case Errs(n) => Reaches(n, h.succ, cfg.errRate) || h.continErr + n >= cfg.continErrLim
  }

  /** The successes make an overloaded host idle. */
  predicate SuccessesRecover(cfg: Config, h: Host, op: HostOp) {
    match op
    case Once(ok) =>
      ok && (Exceeds(h.succ + 1, h.err, cfg.succRate) || h.continSucc + 1 >= cfg.continSuccLim)
    case Succs(n) => Reaches(n, h.err, cfg.succRate) || h.continSucc + n >= cfg.continSuccLim
    case Errs(_) => false
  }

  /** The window that the report ends was bad, its own outcomes included. */
  predicate EndsBadWindow(cfg: Config, h: Host, op: HostOp) {
    var rSucc, rErr := h.rSucc + Succeeded(op), h.rErr + Failed(op);
    rSucc + rErr >= 1 && Reaches(rErr, rSucc, cfg.windErrRate)
  }

  // ---------- The parts of a report ----------

  lemma ShareExceeds(part: nat, rest: nat, rate: Rate)
    requires part + rest > 0
    ensures Share(part, rest) > rate <==> Exceeds(part, rest, rate)
  {
    ShareCross(rate, part, rest);
  }

  lemma NeededReaches(part: nat, rest: nat, rate: Rate)
    ensures part >= Needed(rate, rest) <==> Reaches(part, rest, rate)
  {
    NeededIsLeast(rate, rest, part);
  }

  lemma CountsDecide(cfg: Config, now: int, h: Host, op: HostOp)
    requires Healthy(cfg, h)
    ensures Count(cfg, now, h, op).overload
       <==> if h.overload then !SuccessesRecover(cfg, h, op) else FailuresOverload(cfg, h, op)
  {
    hide Needed, Share, Reaches, Exceeds;
    match op
    case Once(ok) =>
      ShareExceeds(h.err + 1, h.succ, cfg.errRate);
      ShareExceeds(h.succ + 1, h.err, cfg.succRate);
    case Succs(n) => NeededReaches(n, h.err, cfg.succRate);
    case Errs(n) => NeededReaches(n, h.succ, cfg.errRate);
  }

  /** The outcomes as they are counted while the flag stays. */
  predicate CountedUp(h: Host, op: HostOp, r: Host) {
    && r.succ == h.succ + Succeeded(op) && r.err == h.err + Failed(op)
    && r.rSucc == h.rSucc + Succeeded(op) && r.rErr == h.rErr + Failed(op)
    && r.continSucc == (if IsSuccess(op) then h.continSucc + Succeeded(op) else 0)
    && r.continErr == (if IsSuccess(op) then 0 else h.continErr + Failed(op))
    && r.overload == h.overload && r.windowTs == h.windowTs && r.overloadTs == h.overloadTs
    && r.windErrCnt == h.windErrCnt
  }

  /** All that an idle (overloaded) host starts with, but its credit (its debt). */
  predicate StartsIdle(r: Host, now: int) {
    && !r.overload && r.windowTs == now && r.overloadTs == 0
    && r.err == 0 && r.rSucc == 0 && r.rErr == 0 && r.continSucc == 0 && r.continErr == 0
  }

  predicate StartsOverloaded(r: Host, now: int) {
    && r.overload && r.overloadTs == now && r.windErrCnt == 0
    && r.succ == 0 && r.rSucc == 0 && r.rErr == 0 && r.continSucc == 0 && r.continErr == 0
  }

  /** What is left of a batch behind the result that changed the flag. */
  function LeftSuccesses(cfg: Config, h: Host, op: HostOp): int {
    if !op.Succs? || !SuccessesRecover(cfg, h, op) then 0
    else op.n - if h.continSucc + op.n >= cfg.continSuccLim then cfg.continSuccLim - h.continSucc
                else Needed(cfg.succRate, h.err)
  }

  function LeftFailures(cfg: Config, h: Host, op: HostOp): int {
    if !op.Errs? || !FailuresOverload(cfg, h, op) then 0
    else op.n - if h.continErr + op.n >= cfg.continErrLim then cfg.continErrLim - h.continErr
                else Needed(cfg.errRate, h.succ)
  }

  lemma CountsInFields(cfg: Config, now: int, h: Host, op: HostOp)
    requires Healthy(cfg, h)
    ensures var r := Count(cfg, now, h, op);
            && r.ip == h.ip && r.port == h.port
            && (r.overload == h.overload ==> CountedUp(h, op, r))
            && (!h.overload && r.overload ==>
                  StartsOverloaded(r, now) && r.windowTs == h.windowTs
                  && r.err == cfg.ovldErrCnt + LeftFailures(cfg, h, op))
            && (h.overload && !r.overload ==>
                  StartsIdle(r, now) && r.windErrCnt == h.windErrCnt
                  && r.succ == cfg.initSuccCnt + LeftSuccesses(cfg, h, op))
  {
    CountsDecide(cfg, now, h, op);
    hide Needed, Share, Reaches, Exceeds;
  }

  // ---------- A whole report ----------

  /** The waiting limit ends an overload, whatever is reported. */
  lemma WaitEndsOverload(cfg: Config, now: int, h: Host, op: HostOp)
    requires Healthy(cfg, h) && h.overload && now - h.overloadTs >= cfg.ovldWaitLim
    ensures !HostStep(cfg, now, h, op).overload && HostStep(cfg, now, h, op).windowTs == now
  {
    CountsInFields(cfg, now, h, op);
    hide Count, LeftSuccesses;
  }

  /** Exactly when a host is overloaded behind a report: it was and neither enough
      successes nor the waiting limit ended it; or it was not and failures or the
      last of too many bad windows in a row began it. */
  lemma FlagAfterReport(cfg: Config, now: int, h: Host, op: HostOp)
    requires Healthy(cfg, h)
    ensures HostStep(cfg, now, h, op).overload
       <==> if h.overload then !SuccessesRecover(cfg, h, op) && now - h.overloadTs < cfg.ovldWaitLim
            else || FailuresOverload(cfg, h, op)
                 || (&& now - h.windowTs >= cfg.clearTimo && EndsBadWindow(cfg, h, op)
                     && h.windErrCnt + 1 >= cfg.windErrLim)
  {
    CountsDecide(cfg, now, h, op);
    CountsInFields(cfg, now, h, op);
    BadWindowMeans(cfg, h.rSucc + Succeeded(op), h.rErr + Failed(op));
    hide Count, BadWindow, FailuresOverload, SuccessesRecover, Reaches, LeftSuccesses, LeftFailures;
  }

  /** Every field of a host whose flag a report leaves as it is. */
  lemma FieldsWithoutFlip(cfg: Config, now: int, h: Host, op: HostOp)
    requires Healthy(cfg, h) && HostStep(cfg, now, h, op).overload == h.overload
    ensures var r := HostStep(cfg, now, h, op);
            && r.ip == h.ip && r.port == h.port
            && if h.overload || now - h.windowTs < cfg.clearTimo then CountedUp(h, op, r)
               else
                 && StartsIdle(r, now) && r.succ == cfg.initSuccCnt
                 && r.windErrCnt == if EndsBadWindow(cfg, h, op) then h.windErrCnt + 1 else 0
  {
    CountsInFields(cfg, now, h, op);
    BadWindowMeans(cfg, h.rSucc + Succeeded(op), h.rErr + Failed(op));
    hide Count, BadWindow, FailuresOverload, SuccessesRecover, Reaches, LeftSuccesses, LeftFailures;
  }

  /** Every field of a host whose flag a report changes. */
  lemma FieldsAfterFlip(cfg: Config, now: int, h: Host, op: HostOp)
    requires Healthy(cfg, h) && HostStep(cfg, now, h, op).overload != h.overload
    ensures var r := HostStep(cfg, now, h, op);
            && r.ip == h.ip && r.port == h.port
            && if h.overload then
                 && StartsIdle(r, now) && r.windErrCnt == h.windErrCnt
                 && r.succ == cfg.initSuccCnt + LeftSuccesses(cfg, h, op)
               else
                 && StartsOverloaded(r, now) && r.windowTs == h.windowTs
                 && r.err == cfg.ovldErrCnt + LeftFailures(cfg, h, op)
  {
    CountsDecide(cfg, now, h, op);
    CountsInFields(cfg, now, h, op);
    hide Count, BadWindow, FailuresOverload, SuccessesRecover, Reaches;
  }

  /** A host as it enters a balancer. */
  lemma NewHostInFields(cfg: Config, now: int, ip: Uint32, port: Int32)
    ensures var r := NewHost(cfg, now, ip, port);
            r.ip == ip && r.port == port && StartsIdle(r, now) && r.succ == cfg.initSuccCnt && r.windErrCnt == 0
  {
  }
}
