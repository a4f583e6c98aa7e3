/** The mutable load balancer of one module: a map of host objects, two lists
    that share those objects, and the methods that update them in place. Each
    method is tied to a function of `LoadBalancer` on the abstract state. */
module Balancer {
  import opened Wrappers
  import opened Words
  import opened Rates
  import opened Sequences
  import opened Hosts
  import opened LoadBalancer

  const SUCCESS := 0
  const OVERLOAD := -10000

  /** A queue between threads, seen from the side that writes it. */
  class Outbox<T> {
    var messages: seq<T>

    constructor ()
      ensures messages == []
    {
      messages := [];
    }

    method Send(message: T)
      modifies this
      ensures messages == old(messages) + [message]
    {
      messages := messages + [message];
    }
  }

  /** How a choice is answered: a return code and perhaps a host. */
  function Answer(c: Choice): (int, Option<Addr>) {
    match c
    case Refused => (OVERLOAD, None)
    case Picked(k) => (SUCCESS, Some(AddrOf(k)))
  }

  /** A request is answered with code 0 and the host whose turn it is, or with the
      code of an overloaded module and none. */
  lemma AnswerMeans(cfg: Config, s: Lb)
    requires Inv(cfg, s) && s.hosts != map[]
    ensures var (ret, host) := Answer(Choose(cfg, s));
            if s.down != [] && s.accessCnt >= cfg.probeNum then
              ret == 0 && host.Some? && host.value.Key() == s.down[0]
            else if s.running != [] then
              ret == 0 && host.Some? && host.value.Key() == s.running[0]
            else ret == -10000 && host == None
  {
    QueuesListEveryHostOnce(cfg, s);
    if s.running != [] { KeyOfAddrOf(s.running[0]); }
    if s.down != [] { KeyOfAddrOf(s.down[0]); }
  }

  /** One host's line in a status message to the reporter. */
  datatype CallResult = CallResult(addr: Addr, succ: nat, err: nat, overload: bool)

  datatype StatusMsg = StatusMsg(modid: Int32, cmdid: Int32, ts: int, caller: Int32, results: seq<CallResult>)

  function ResultOf(s: Lb, k: Uint64): CallResult
    requires k in s.hosts
  {
    CallResult(AddrOf(k), s.hosts[k].rSucc, s.hosts[k].rErr, s.hosts[k].overload)
  }

  /** What the reporter is told: every host with its real counters and its flag. */
  function Results(s: Lb): seq<CallResult>
    requires Wired(s)
  {
    var queues := s.running + s.down;
    seq(|queues|, i requires 0 <= i < |queues| => ResultOf(s, queues[i]))
  }

  /** Every host is told of exactly once, with the flag of the queue it is in. */
  lemma ResultsCoverEveryHost(cfg: Config, s: Lb)
    requires Inv(cfg, s)
    ensures |Results(s)| == |s.hosts|
    ensures forall i, j :: 0 <= i < j < |Results(s)| ==> Results(s)[i].addr != Results(s)[j].addr
    ensures forall k :: k in s.hosts <==> exists i :: 0 <= i < |Results(s)| && Results(s)[i].addr.Key() == k
    ensures forall i :: 0 <= i < |Results(s)| ==>
              var k := Results(s)[i].addr.Key();
              && k in s.hosts && Results(s)[i].succ == s.hosts[k].rSucc && Results(s)[i].err == s.hosts[k].rErr
              && (Results(s)[i].overload <==> k in s.down)
  {
    var queues := s.running + s.down;
    QueuesListEveryHostOnce(cfg, s);
    LengthOfListing(queues, s.hosts.Keys);
    forall i | 0 <= i < |queues|
      ensures Results(s)[i].addr.Key() == queues[i] && queues[i] in s.hosts
    {
      KeyOfAddrOf(queues[i]);
      assert queues[i] in queues;
    }
    forall k | k in s.hosts
      ensures exists i :: 0 <= i < |Results(s)| && Results(s)[i].addr.Key() == k
    {
      var i :| 0 <= i < |queues| && queues[i] == k;
      assert Results(s)[i].addr.Key() == k;
    }
  }

  /** The keys behind a list of host objects. */
  function KeysOf(list: seq<HI>): (r: seq<Uint64>)
    ensures |r| == |list|
    ensures forall i :: 0 <= i < |r| ==> r[i] == list[i].Key()
  {
    seq(|list|, i requires 0 <= i < |list| => list[i].Key())
  }

  lemma {:induction false} KeysOfWithout(list: seq<HI>, hi: HI)
    requires forall h :: h in list && h.Key() == hi.Key() ==> h == hi
    ensures KeysOf(Without(list, hi)) == Without(KeysOf(list), hi.Key())
  {
    if list != [] {
      assert KeysOf(list)[1..] == KeysOf(list[1..]);
      KeysOfWithout(list[1..], hi);
      if list[0] != hi {
        assert KeysOf([list[0]] + Without(list[1..], hi))
            == [list[0].Key()] + KeysOf(Without(list[1..], hi));
      }
    }
  }

  lemma KeyIsListed(list: seq<HI>, hi: HI)
    requires hi in list
    ensures hi.Key() in KeysOf(list)
  {
    var i :| 0 <= i < |list| && list[i] == hi;
    assert KeysOf(list)[i] == hi.Key();
  }

  /** The values behind a map of host objects. */
  ghost function ValuesOf(m: map<Uint64, HI>): (r: map<Uint64, Host>)
    reads m.Values
  {
    map k | k in m :: m[k].Value()
  }

  /** The lists share the objects of the map, each under its own key. */
  ghost predicate Links(m: map<Uint64, HI>, running: seq<HI>, down: seq<HI>) {
    && (forall k :: k in m ==> m[k].Key() == k)
    && (forall h :: h in running ==> h.Key() in m && m[h.Key()] == h)
    && (forall h :: h in down ==> h.Key() in m && m[h.Key()] == h)
  }

  lemma KeyIsOfAddr(hi: HI)
    ensures AddrOf(hi.Key()) == Addr(ToInt32(hi.ip), hi.port)
  {
    PackedHighOfPack(hi.ip, hi.port);
    PackHalves(hi.ip, hi.port);
  }

  lemma HostAtAddr(cfg: Config, now: int, a: Addr)
    ensures HostAt(cfg, now, a.Key()) == NewHost(cfg, now, ToUint32(a.ip), a.port)
    ensures Pack(ToUint32(a.ip), a.port) == a.Key()
  {
    PackedHighOfPack(a.ip, a.port);
    PackHalves(a.ip, a.port);
    PackOfUint32(a.ip, a.port);
  }

  class LB {
    const cfg: Config
    const modid: Int32
    const cmdid: Int32
    var effectData: int
    var lstRptTime: int
    var status: Status
    var version: Option<int>
    var accessCnt: nat
    var hostMap: map<Uint64, HI>
    var runningList: seq<HI>
    var downList: seq<HI>

    ghost function Repr(): set<object>
      reads this
    {
      {this} + hostMap.Values
    }

    ghost predicate Linked()
      reads this
    {
      Links(hostMap, runningList, downList)
    }

    ghost function State(): Lb
      reads this, hostMap.Values
    {
      Lb(ValuesOf(hostMap), KeysOf(runningList), KeysOf(downList), accessCnt,
         effectData, lstRptTime, status, version)
    }

    ghost predicate Valid()
      reads this, hostMap.Values
    {
      Linked() && Inv(cfg, State())
    }

    constructor (cfg: Config, modid: Int32, cmdid: Int32)
      ensures Valid() && State() == NEW_LB && fresh(Repr())
      ensures hostMap == map[] && runningList == [] && downList == [] && accessCnt == 0
      ensures effectData == 0 && lstRptTime == 0 && status == IsPulling && version == None
      ensures this.cfg == cfg && this.modid == modid && this.cmdid == cmdid
    {
      this.cfg, this.modid, this.cmdid := cfg, modid, cmdid;
      effectData, lstRptTime, status, version := 0, 0, IsPulling, None;
      accessCnt := 0;
      hostMap, runningList, downList := map[], [], [];
    }

    lemma Facts()
      requires Valid()
      ensures Inv(cfg, State())
      ensures State().hosts.Keys == hostMap.Keys
      ensures State().hosts == map[] <==> hostMap == map[]
      ensures State().status == status && State().effectData == effectData && State().version == version
      ensures State().down == [] <==> downList == []
    {
      assert State().hosts.Keys == hostMap.Keys;
      assert |State().down| == |downList|;
    }

    lemma SomeoneIsListed()
      requires Valid() && hostMap != map[]
      ensures State().hosts != map[]
      ensures runningList != [] || downList != []
    {
      assert State().hosts.Keys == hostMap.Keys;
      QueuesListEveryHostOnce(cfg, State());
    }

    /** Chooses a host to call. The callers check that there is one. */
    method GetHost() returns (ret: int, host: Option<Addr>)
      requires Linked() && (runningList != [] || downList != [])
      modifies this`accessCnt, this`runningList, this`downList
      ensures Linked()
      ensures State() == AfterChoice(cfg, old(State()))
      ensures (ret, host) == Answer(Choose(cfg, old(State())))
    {
      hide Links, KeysOf, ValuesOf, Rotated, AddrOf;
      ghost var s := State();
      assert |s.running| == |runningList| && |s.down| == |downList|;
      if runningList == [] {
        if accessCnt >= cfg.probeNum {
          accessCnt := 0;
          host := TakeDown();
        } else {
          accessCnt := accessCnt + 1;
          return OVERLOAD, None;
        }
      } else if downList == [] {
        accessCnt := 0;
        host := TakeRunning();
      } else if accessCnt >= cfg.probeNum {
        accessCnt := 0;
        host := TakeDown();
      } else {
        accessCnt := accessCnt + 1;
        host := TakeRunning();
      }
      ret := SUCCESS;
    }

    /** `GetHost` from the callers' side. */
    method SelectHost() returns (ret: int, host: Option<Addr>)
      requires Valid() && hostMap != map[]
      modifies this`accessCnt, this`runningList, this`downList
      ensures Valid() && State() == AfterChoice(cfg, old(State()))
      ensures (ret, host) == Answer(Choose(cfg, old(State())))
    {
      SomeoneIsListed();
      AfterChoiceKeepsInv(cfg, State());
      hide Inv, Links, KeysOf, ValuesOf, AfterChoice, Choose;
      ret, host := GetHost();
    }

    /** The first running host, which goes to the back of its list. */
    method TakeRunning() returns (host: Option<Addr>)
      requires Linked() && runningList != []
      modifies this`runningList
      ensures Linked()
      ensures State() == old(State()).(running := Rotated(old(State()).running))
      ensures host == Some(AddrOf(old(State()).running[0]))
    {
      var hi := runningList[0];
      runningList := runningList[1..] + [hi];
      KeyIsOfAddr(hi);
      host := Some(Addr(ToInt32(hi.ip), hi.port));
    }

    method TakeDown() returns (host: Option<Addr>)
      requires Linked() && downList != []
      modifies this`downList
      ensures Linked()
      ensures State() == old(State()).(down := Rotated(old(State()).down))
      ensures host == Some(AddrOf(old(State()).down[0]))
    {
      var hi := downList[0];
      downList := downList[1..] + [hi];
      KeyIsOfAddr(hi);
      host := Some(Addr(ToInt32(hi.ip), hi.port));
    }

    /** All hosts, in the map's own order. */
    method GetRoute() returns (route: seq<HI>)
      requires Valid()
      ensures NoDuplicates(KeysOf(route))
      ensures forall k :: k in KeysOf(route) <==> k in hostMap
      ensures forall h :: h in route ==> h in hostMap.Values
    {
      route := [];
      var left := hostMap.Keys;
      while left != {}
        invariant left <= hostMap.Keys
        invariant NoDuplicates(KeysOf(route))
        invariant forall k :: k in KeysOf(route) <==> k in hostMap && k !in left
        invariant forall h :: h in route ==> h in hostMap.Values
        decreases left
      {
        var k :| k in left;
        ghost var before := KeysOf(route);
        route := route + [hostMap[k]];
        left := left - {k};
        assert KeysOf(route) == before + [k];
      }
    }

    /** How the lists follow a change of hi's flag. */
    twostate predicate ListsFollow(hi: HI)
      reads this, hi
    {
      if hi.overload == old(hi.overload) then
        runningList == old(runningList) && downList == old(downList)
      else if hi.overload then
        && KeysOf(runningList) == Without(KeysOf(old(runningList)), hi.Key())
        && KeysOf(downList) == KeysOf(old(downList)) + [hi.Key()]
      else
        && KeysOf(runningList) == KeysOf(old(runningList)) + [hi.Key()]
        && KeysOf(downList) == Without(KeysOf(old(downList)), hi.Key())
    }

    /** Only hi and the lists changed, and the lists followed hi's flag. */
    twostate lemma OnlyHostChanged(hi: HI)
      requires old(Linked() && hi.Key() in hostMap && hostMap[hi.Key()] == hi)
      requires unchanged(`hostMap, `accessCnt, `effectData, `lstRptTime, `status, `version)
      requires forall k :: k in hostMap && hostMap[k] != hi ==> unchanged(hostMap[k])
      requires ListsFollow(hi)
      ensures State() == Put(old(State()), hi.Key(), hi.Value())
    {
      assert ValuesOf(hostMap) == old(ValuesOf(hostMap))[hi.Key() := hi.Value()];
    }

    /** Turns a running host into an overloaded one and moves it to the other list. */
    method MoveToDown(hi: HI, now: int)
      requires Linked()
      requires hi.Key() in hostMap && hostMap[hi.Key()] == hi && !hi.overload
      modifies hi, this`runningList, this`downList
      ensures Linked()
      ensures hi.Value() == AsOverloaded(cfg, now, old(hi.Value()))
      ensures ListsFollow(hi)
    {
      hi.SetOverload(cfg, now);
      KeysOfWithout(runningList, hi);
      runningList := Without(runningList, hi);
      downList := downList + [hi];
    }

    method MoveToRunning(hi: HI, now: int)
      requires Linked()
      requires hi.Key() in hostMap && hostMap[hi.Key()] == hi && hi.overload
      modifies hi, this`runningList, this`downList
      ensures Linked()
      ensures hi.Value() == AsIdle(cfg, now, old(hi.Value()))
      ensures ListsFollow(hi)
    {
      hi.ResetIdle(cfg, now);
      KeysOfWithout(downList, hi);
      downList := Without(downList, hi);
      runningList := runningList + [hi];
    }

    /** The end of every report: a window that has run out is closed, a host that
        has waited long enough becomes idle again. */
    method ApplyClock(hi: HI, now: int)
      requires Linked() && hi.Key() in hostMap && hostMap[hi.Key()] == hi
      modifies hi, this`runningList, this`downList
      ensures Linked()
      ensures hi.Value() == Expire(cfg, now, old(hi.Value()))
      ensures ListsFollow(hi)
    {
      if !hi.overload {
        if now - hi.windowTs >= cfg.clearTimo {
          var tooMany := hi.CheckWindow(cfg);
          if tooMany {
            MoveToDown(hi, now);
          } else {
            hi.ResetIdle(cfg, now);
          }
        }
      } else if now - hi.overloadTs >= cfg.ovldWaitLim {
        MoveToRunning(hi, now);
      }
    }

    /** Counts one outcome; an idle host is tested after a failure, an overloaded
        one after a success. */
    method CountOutcome(hi: HI, ok: bool, now: int)
      requires Linked() && hi.Key() in hostMap && hostMap[hi.Key()] == hi && Bounded(cfg, hi.Value())
      modifies hi, this`runningList, this`downList
      ensures Linked()
      ensures hi.Value() == Count(cfg, now, old(hi.Value()), Once(ok))
      ensures ListsFollow(hi)
    {
      hi.Tally(ok);
      if !hi.overload && !ok {
        var ifOverload := false;
        if Share(hi.err, hi.succ) > cfg.errRate { ifOverload := true; }
        if !ifOverload && hi.continErr >= cfg.continErrLim { ifOverload := true; }
        if ifOverload { MoveToDown(hi, now); }
      } else if hi.overload && ok {
        var ifIdle := false;
        if Share(hi.succ, hi.err) > cfg.succRate { ifIdle := true; }
        if !ifIdle && hi.continSucc >= cfg.continSuccLim { ifIdle := true; }
        if ifIdle { MoveToRunning(hi, now); }
      }
    }

    /** Counts several successes; an overloaded host is tested. */
    method CountSuccesses(hi: HI, succCnt: nat, now: int)
      requires Linked() && hi.Key() in hostMap && hostMap[hi.Key()] == hi && Bounded(cfg, hi.Value())
      modifies hi, this`runningList, this`downList
      ensures Linked()
      ensures hi.Value() == Count(cfg, now, old(hi.Value()), Succs(succCnt))
      ensures ListsFollow(hi)
    {
      ghost var h := hi.Value();
      hi.rSucc := hi.rSucc + succCnt;
      hi.continSucc, hi.continErr := hi.continSucc + succCnt, 0;
      if !hi.overload {
        hi.succ := hi.succ + succCnt;
      } else {
        var ifIdle, leftSuccCnt := hi.TestSuccesses(cfg, succCnt, h);
        hi.succ := hi.succ + (succCnt - leftSuccCnt);
        if ifIdle {
          MoveToRunning(hi, now);
        }
        hi.succ := hi.succ + leftSuccCnt;
      }
    }

    /** Counts several failures; an idle host is tested. */
    method CountFailures(hi: HI, errCnt: nat, now: int)
      requires Linked() && hi.Key() in hostMap && hostMap[hi.Key()] == hi && Bounded(cfg, hi.Value())
      modifies hi, this`runningList, this`downList
      ensures Linked()
      ensures hi.Value() == Count(cfg, now, old(hi.Value()), Errs(errCnt))
      ensures ListsFollow(hi)
    {
      ghost var h := hi.Value();
      hi.rErr := hi.rErr + errCnt;
      hi.continSucc, hi.continErr := 0, hi.continErr + errCnt;
      if hi.overload {
        hi.err := hi.err + errCnt;
      } else {
        var ifOverload, leftErrCnt := hi.TestFailures(cfg, errCnt, h);
        hi.err := hi.err + (errCnt - leftErrCnt);
        if ifOverload {
          MoveToDown(hi, now);
        }
        hi.err := hi.err + leftErrCnt;
      }
    }

    /** A whole report on a host: counting and tests, then the clock, which leaves
        alone a host that has just moved. */
    method Settle(hi: HI, op: HostOp, now: int)
      requires Linked() && hi.Key() in hostMap && hostMap[hi.Key()] == hi && Bounded(cfg, hi.Value())
      modifies hi, this`runningList, this`downList
      ensures Linked()
      ensures hi.Value() == HostStep(cfg, now, old(hi.Value()), op)
      ensures ListsFollow(hi)
    {
      ghost var h := hi.Value();
      match op {
        case Once(ok) => CountOutcome(hi, ok, now);
        case Succs(n) => CountSuccesses(hi, n, now);
        case Errs(n) => CountFailures(hi, n, now);
      }
      if hi.overload != h.overload {
        FlipIsFinal(cfg, now, h, op);
      }
      ApplyClock(hi, now);
    }

    /** Looks the host up and, if it is known, counts the report. */
    method ReportOn(ip: Int32, port: Int32, op: HostOp, now: int)
      requires Valid()
      modifies hostMap.Values, this`runningList, this`downList
      ensures Valid()
      ensures State() == Reported(cfg, now, old(State()), Pack(ip, port), op)
    {
      hide Put, HostStep, Links, Inv, Reported, KeysOf, ValuesOf, Pack;
      var key := Pack(ip, port);
      ReportPutsHost(key, op, now);
      if key !in hostMap { return; }
      Settle(hostMap[key], op, now);
      OnlyHostChanged(hostMap[key]);
    }

    /** A report on a known host is one change of that host. */
    lemma ReportPutsHost(key: Uint64, op: HostOp, now: int)
      requires Valid()
      ensures Linked() && Inv(cfg, State()) && Inv(cfg, Reported(cfg, now, State(), key, op))
      ensures key !in hostMap ==> Reported(cfg, now, State(), key, op) == State()
      ensures key in hostMap ==>
                && hostMap[key].Key() == key && Bounded(cfg, hostMap[key].Value())
                && Reported(cfg, now, State(), key, op)
                   == Put(State(), key, HostStep(cfg, now, hostMap[key].Value(), op))
    {
      hide HostStep, Put;
      ReportedKeepsInv(cfg, now, State(), key, op);
      assert key in hostMap ==> State().hosts[key] == hostMap[key].Value();
    }

    /** One call's outcome. */
    method Report(ip: Int32, port: Int32, retcode: int, now: int)
      requires Valid()
      modifies hostMap.Values, this`runningList, this`downList
      ensures Valid()
      ensures State() == Reported(cfg, now, old(State()), Pack(ip, port), Once(retcode == 0))
    {
      ReportOn(ip, port, Once(retcode == 0), now);
    }

    /** Several successes at once. */
    method ReportSomeSucc(ip: Int32, port: Int32, succCnt: nat, now: int)
      requires Valid()
      modifies hostMap.Values, this`runningList, this`downList
      ensures Valid()
      ensures State() == Reported(cfg, now, old(State()), Pack(ip, port), Succs(succCnt))
    {
      ReportOn(ip, port, Succs(succCnt), now);
    }

    /** Several failures at once: one slow failure counts as many. */
    method ReportSomeErr(ip: Int32, port: Int32, errCnt: nat, now: int)
      requires Valid()
      modifies hostMap.Values, this`runningList, this`downList
      ensures Valid()
      ensures State() == Reported(cfg, now, old(State()), Pack(ip, port), Errs(errCnt))
    {
      ReportOn(ip, port, Errs(errCnt), now);
    }

    /** Adds a host behind the running ones unless it is already known. */
    method AddHost(h: Addr, now: int) returns (added: bool)
      requires Linked()
      modifies this`hostMap, this`runningList
      ensures Linked() && fresh(Repr() - old(Repr()))
      ensures added <==> h.Key() !in old(hostMap)
      ensures State() == WithHost(cfg, now, old(State()), h.Key())
    {
      var key := h.Key();
      added := key !in hostMap;
      if added {
        var hi := new HI(cfg, now, ToUint32(h.ip), h.port);
        HostAtAddr(cfg, now, h);
        ghost var values, keys := ValuesOf(hostMap), KeysOf(runningList);
        hostMap := hostMap[key := hi];
        runningList := runningList + [hi];
        assert ValuesOf(hostMap) == values[key := hi.Value()];
        assert KeysOf(runningList) == keys + [key];
      }
    }

    /** Takes a host out of the map and of the list its flag says it is in. */
    method RemoveHost(key: Uint64)
      requires Linked() && Wired(State()) && key in hostMap
      modifies this`hostMap, this`runningList, this`downList
      ensures Linked() && Repr() <= old(Repr())
      ensures State() == WithoutHost(old(State()), key)
    {
      hide KeysOf, Links, Without;
      var hi := hostMap[key];
      ghost var values := ValuesOf(hostMap);
      assert values[key] == hi.Value();
      assert hi.overload ==> key !in KeysOf(runningList);
      assert !hi.overload ==> key !in KeysOf(downList);
      DropFromLists(hi);
      hostMap := hostMap - {key};
      assert ValuesOf(hostMap) == values - {key};
    }

    method DropFromLists(hi: HI)
      requires Linked() && hi.Key() in hostMap && hostMap[hi.Key()] == hi
      requires if hi.overload then hi.Key() !in KeysOf(runningList) else hi.Key() !in KeysOf(downList)
      modifies this`runningList, this`downList
      ensures KeysOf(runningList) == Without(KeysOf(old(runningList)), hi.Key())
      ensures KeysOf(downList) == Without(KeysOf(old(downList)), hi.Key())
      ensures Links(hostMap - {hi.Key()}, runningList, downList)
    {
      var key := hi.Key();
      if hi.overload {
        forall h | h in runningList ensures h.Key() != key { KeyIsListed(runningList, h); }
        KeysOfWithout(downList, hi);
        WithoutAbsent(KeysOf(runningList), key);
        downList := Without(downList, hi);
      } else {
        forall h | h in downList ensures h.Key() != key { KeyIsListed(downList, h); }
        KeysOfWithout(runningList, hi);
        WithoutAbsent(KeysOf(downList), key);
        runningList := Without(runningList, hi);
      }
    }

    /** Reconciles the hosts with a non-empty response. */
    method Update(response: seq<Addr>, now: int)
      requires Valid() && response != []
      modifies this
      ensures Valid() && fresh(Repr() - old(Repr()))
      ensures State() == Refreshed(cfg, now, old(State()), response)
    {
      hide Refreshed, Restricted, WithHosts, Stamped, AllHealthy, KeySet, KeysOf, Links;
      ghost var s := State();
      RefreshedKeepsInv(cfg, now, s, response);
      RefreshedInSteps(cfg, now, s, response);
      var resetRptTime := hostMap == map[];
      assert resetRptTime <==> s.hosts == map[] by { assert s.hosts.Keys == hostMap.Keys; }
      var updated := Reconcile(response, now);
      Stamp(now, resetRptTime, updated);
    }

    method Stamp(now: int, resetRptTime: bool, updated: bool)
      modifies this`effectData, this`status, this`lstRptTime, this`version
      ensures State() == Stamped(now, old(State()), resetRptTime, updated)
    {
      effectData := now;
      status := IsNew;
      if resetRptTime { lstRptTime := now; }
      if updated { version := Some(now); }
    }

    method Reconcile(response: seq<Addr>, now: int) returns (updated: bool)
      requires Linked() && Wired(State())
      modifies this`hostMap, this`runningList, this`downList
      ensures Linked() && fresh(Repr() - old(Repr()))
      ensures State() == Restricted(WithHosts(cfg, now, old(State()), response), KeySet(response))
      ensures updated <==> KeySet(response) != old(State()).hosts.Keys
    {
      hide Restricted, WithHosts, KeySet, KeysOf, Links;
      ghost var s := State();
      WithHostsKeys(cfg, now, s, response);
      var remote, added := AddAll(response, now);
      assert hostMap.Keys == State().hosts.Keys;
      var removed := RemoveMissing(remote);
      updated := added || removed;
    }

    method AddAll(response: seq<Addr>, now: int) returns (remote: set<Uint64>, updated: bool)
      requires Linked() && Wired(State())
      modifies this`hostMap, this`runningList
      ensures Linked() && Wired(State()) && fresh(Repr() - old(Repr()))
      ensures State() == WithHosts(cfg, now, old(State()), response)
      ensures remote == KeySet(response)
      ensures updated <==> !(KeySet(response) <= old(State()).hosts.Keys)
    {
      hide Links, KeysOf, ValuesOf, WithHost, HostAt, Wired, KeySet;
      remote, updated := {}, false;
      ghost var s := State();
      NothingAdded(cfg, now, s, response);
      for i := 0 to |response|
        invariant Linked() && fresh(Repr() - old(Repr()))
        invariant State() == WithHosts(cfg, now, s, response[..i])
        invariant remote == KeySet(response[..i])
        invariant updated <==> !(remote <= s.hosts.Keys)
      {
        var h := response[i];
        KeysExtended(response, i);
        WithHostsKeys(cfg, now, s, response[..i]);
        WithHostsExtended(cfg, now, s, response, i);
        KnownKeys();
        remote := remote + {h.Key()};
        var added := AddHost(h, now);
        if added { updated := true; }
      }
      assert response[..|response|] == response;
      WithHostsKeepsWired(cfg, now, s, response);
    }

    lemma KnownKeys()
      ensures State().hosts.Keys == hostMap.Keys
    {
      assert State().hosts.Keys == hostMap.Keys;
    }

    /** Removes every host that is not among the given keys. */
    method RemoveMissing(remote: set<Uint64>) returns (updated: bool)
      requires Linked() && Wired(State())
      modifies this`hostMap, this`runningList, this`downList
      ensures Linked() && Repr() <= old(Repr())
      ensures State() == Restricted(old(State()), remote)
      ensures updated <==> !(old(hostMap).Keys <= remote)
    {
      ghost var s := State();
      var todel := set k | k in hostMap && k !in remote;
      updated := todel != {};
      RestrictedToAll(s, remote + todel);
      while todel != {}
        invariant Linked() && Repr() <= old(Repr())
        invariant todel !! remote && todel <= s.hosts.Keys
        invariant State() == Restricted(s, remote + todel)
        decreases todel
      {
        var key :| key in todel;
        RemovalStep(s, remote, todel, key);
        RemoveHost(key);
        todel := todel - {key};
      }
      assert remote + todel == remote;
    }

    /** Asks for a fresh route. */
    method Pull(pullQueue: Outbox<(Int32, Int32)>)
      requires Valid()
      modifies this`status, pullQueue
      ensures Valid() && State() == old(State()).(status := IsPulling)
      ensures pullQueue.messages == old(pullQueue.messages) + [(modid, cmdid)]
    {
      ScalarsKeepInv(cfg, State(), State().(status := IsPulling));
      pullQueue.Send((modid, cmdid));
      status := IsPulling;
    }

    /** No pull is under way any more. */
    method ClearStatus()
      requires Valid()
      modifies this`status
      ensures Valid() && State() == old(State()).(status := IsNew)
    {
      ScalarsKeepInv(cfg, State(), State().(status := IsNew));
      status := IsNew;
    }

    /** Tells the reporter about all hosts once per period. The real counters are
        left as they are. */
    method Report2Rpter(reptQueue: Outbox<StatusMsg>, now: int)
      requires Valid()
      modifies this`lstRptTime, reptQueue
      ensures Valid()
      ensures State() == if ReporterDue(cfg, now, old(State())) then old(State()).(lstRptTime := now) else old(State())
      ensures reptQueue.messages == old(reptQueue.messages)
              + if ReporterDue(cfg, now, old(State()))
                then [StatusMsg(modid, cmdid, now, ToInt32(cfg.myIp), Results(old(State())))] else []
    {
      hide Results;
      assert hostMap.Keys == State().hosts.Keys;
      if hostMap == map[] { return; }
      if now - lstRptTime < cfg.reportTimo { return; }
      SendStatus(reptQueue, now);
    }

    lemma WiredState()
      requires Valid()
      ensures Linked() && Wired(State())
    {
    }

    method SendStatus(reptQueue: Outbox<StatusMsg>, now: int)
      requires Valid()
      modifies this`lstRptTime, reptQueue
      ensures Valid() && State() == old(State()).(lstRptTime := now)
      ensures reptQueue.messages
           == old(reptQueue.messages) + [StatusMsg(modid, cmdid, now, ToInt32(cfg.myIp), Results(old(State())))]
    {
      hide Inv, Links, Results, KeysOf, ValuesOf;
      ScalarsKeepInv(cfg, State(), State().(lstRptTime := now));
      WiredState();
      var results := DescribeAll();
      lstRptTime := now;
      reptQueue.Send(StatusMsg(modid, cmdid, now, ToInt32(cfg.myIp), results));
    }

    lemma FlagsFollowLists()
      requires Linked() && Wired(State())
      ensures forall h :: h in runningList ==> !h.overload
      ensures forall h :: h in downList ==> h.overload
    {
      forall h | h in runningList ensures !h.overload {
        KeyIsListed(runningList, h);
        assert State().hosts[h.Key()] == h.Value();
      }
      forall h | h in downList ensures h.overload {
        KeyIsListed(downList, h);
        assert State().hosts[h.Key()] == h.Value();
      }
    }

    /** The status lines of both lists. */
    method DescribeAll() returns (results: seq<CallResult>)
      requires Linked() && Wired(State())
      ensures results == Results(State())
    {
      FlagsFollowLists();
      ghost var s := State();
      var running := Describe(runningList, false);
      var down := Describe(downList, true);
      results := running + down;
      forall i | 0 <= i < |results|
        ensures results[i] == ResultOf(s, (s.running + s.down)[i])
      {
        if i < |running| {
          assert s.running[i] == runningList[i].Key();
        } else {
          assert s.down[i - |running|] == downList[i - |running|].Key();
        }
      }
    }

    /** The status lines of one list. */
    method Describe(list: seq<HI>, overload: bool) returns (results: seq<CallResult>)
      requires Linked()
      requires forall h :: h in list ==> h.Key() in hostMap && hostMap[h.Key()] == h && h.overload == overload
      ensures |results| == |list|
      ensures forall i :: 0 <= i < |list| ==>
                list[i].Key() in State().hosts && results[i] == ResultOf(State(), list[i].Key())
    {
      results := [];
      for i := 0 to |list|
        invariant |results| == i
        invariant forall j :: 0 <= j < i ==>
                    list[j].Key() in State().hosts && results[j] == ResultOf(State(), list[j].Key())
      {
        var hi := list[i];
        KeyIsOfAddr(hi);
        results := results + [CallResult(Addr(ToInt32(hi.ip), hi.port), hi.rSucc, hi.rErr, overload)];
      }
    }
  }
}
