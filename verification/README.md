# A verified model of the load balancer

The system answers one question for callers of remote services: which host of a module
(`modid`, `cmdid`) should be called next, given how recent calls went. It has three parts.

* The **agent** keeps, for every module, a map of hosts and two queues. Idle hosts are served round
  robin; overloaded hosts wait in the second queue and one of them is tried after every `probeNum`
  ordinary selections. Reports of single calls, of batches of successes and of slow failures move hosts between
  the queues, by rates, by runs of equal outcomes, by bad windows in a row and by time. Routes come
  from the DNS server and are reconciled with the map and both queues. Three such tables share the modules.
* The **client** caches a versioned copy of a module's host list, serves from it while no host of the
  module is overloaded, and collects successes that it sends in batches. When the agent is dead it
  reads the files in which the agent saves its routes.
* The **DNS server** groups the rows of a table by module in two buffers, of which one is read while
  the other is filled, and pushes changes to the connections that subscribe to a module.

Each mutable part is a class or a set of methods that change fields in place, and each method is
tied to a function on values; what the system promises is then proved of those functions, of single steps and
of whole runs.

| files | what they are about |
|---|---|
| `Words`, `Wrappers`, `Sequences`, `Counting`, `Rates` | 32- and 64-bit packing, queues, sums of counters, threshold arithmetic |
| `Hosts`, `HostRules`, `WindowHistory`, `BatchReports` | one host: counters, flag, its rules in plain numbers, window history, batches against single reports |
| `LoadBalancer`, `QueueRules`, `Fairness`, `Balancer` | one module: the value and its runs, its operations field by field, no starvation, the class |
| `Agent`, `PullProtocol`, `RouteTable`, `AgentRuns`, `Shards` | all modules: requests, pulls, the table class, the three tables |
| `ClientCache`, `ClientRules`, `ElbClient`, `ClientMessages`, `Replica`, `Stamps` | the client: cached item, its calls field by field, the class, its messages in numbers, agent and client together, the exact condition for their agreement |
| `RouteData`, `Subscriptions`, `DnsMachine`, `DnsRuns`, `DnsServer`, `TableToAgent` | the DNS server: classes, the interleaved state machine, the handlers as runs of it, a row's way to the agent |
| `RouteText`, `Persist` | the backup files: printing, scanning, writer and reader |

## Main results

* **No starvation** (`Fairness`). Under any interleaving of selections, reports and route updates, an
  overloaded host at position p is tried within (p + 1)(probeNum + 1) selections and an idle one at position p is
  returned within 2(p + 1), as long as it stays in its queue.
* **Batches against single reports** (`BatchReports`). A batch of n failures on an idle host, or of n
  successes on an overloaded one, gives the same flag, the same virtual counters and the same queues as n
  single reports *exactly* when `FailuresAligned` (`SuccessesAligned`) holds, a comparison of three numbers
  that can be computed before the call. They agree whenever the limit on consecutive outcomes is reached no
  later than the rate. They do not always agree: a concrete reachable host is given for which five
  single failures overload it and one report of five does not.
* **Invariant of every run** (`LoadBalancer`). The two queues partition the hosts by their flags, the
  counters balance, run lengths stay below their limits, a filled balancer has a version.
* **Rules in plain numbers** (`HostRules`, `QueueRules`, `ClientRules`, `ClientMessages`). Exactly when a report
  overloads or frees a host, by counts, windows and waiting time, and every field afterwards; whom a selection answers
  and when it refuses; where a report puts its host; when a route is pulled again, how a slow failure counts;
  what a client's call does to a cached module, and what its messages say.
* **Window history** (`WindowHistory`). The counter of bad windows is the length of the longest suffix of
  bad windows among those the host closed since it last became overloaded, and the window rule acts exactly
  when that length reaches its limit; also for a host inside a running balancer. The real counters are the outcomes
  reported since the host's last reset.
* **Reconciliation** (`LoadBalancer`, `Balancer`). After an update the hosts are those of the response;
  survivors keep counters and order, newcomers queue up behind them in order of first appearance; the version
  changes exactly if the set of hosts does.
* **Pulls** (`PullProtocol`). Pull requests of a module are at most 1 + route updates + reconnects. The
  assertion that an empty entry is being pulled holds exactly if no reconnect has hit an entry before
  its first route; both the exact condition and the shortest failing run are given.
* **One table or three** (`AgentRuns`, `Shards`). Modules do not disturb each other, and the three
  tables together hold, in every run, what one table would hold.
* **Replica agreement** (`Replica`, `Stamps`). For every schedule of the agent: every client, however its
  calls are interleaved, has the agent's hosts whenever it has the agent's version, *if and only if* changes
  of the schedule that carry the same second brought the same hosts. Under that condition every successful
  exchange leaves the client with version, hosts and flag. For any two different host sets a disagreeing run
  is given.
* **Conservation** (`ClientCache`, `ClientMessages`, `Replica`). Successes reported on listed hosts of modules without
  overloaded hosts = successes sent in batches + successes held, in every run, with any agent and any losses of
  replies; a batch carries exactly what was held.
* **Snapshots and hand-off** (`DnsMachine`). A lookup returns exactly what one complete table load says;
  a change waits for a connection exactly from its announcement to the connection's next fetch, is sent exactly
  once per fetch, and is answered from a load no older than the one that was announced. It reaches a connection
  that does not subscribe exactly if the subscription was given up since and not taken out again; a run in which it
  reaches a stranger is given.
* **Handlers as steps** (`DnsRuns`, `DnsServer`). A request, a closing connection, a push and a round of the loader
  change the objects exactly as a run of the machine's single steps does.
* **Table to agent** (`TableToAgent`). After an update the agent's hosts are, for every table and address, those of the
  rows, with an ip one less where the port is negative; so they are the rows themselves if and only if the
  module has no negative port.
* **Backup** (`RouteText`, `Persist`, `Shards`). What the three tables print, each at its own moment, the client
  scans back: for every module, every host it had when its own table was saved, each once, and nothing else.

## Conventions

* Each critical section is one atomic step with one clock value `now`; clock values are arbitrary integers
  unless a lemma says otherwise.
* Rates are exact reals strictly between 0 and 1; limits and periods are at least 1; counters are natural
  numbers. Keys wrap at 64 bits and casts to 32 bits are written out.
* A failed `assert` of the agent is an answer `Aborted` or `CacheAborted` that changes nothing.
* `LB::version` is not initialised by the constructor; it is an `Option` here, and `Inv` says that it is
  set before any reader can see it.
* A call that never returns, the reader of a backup file that cannot be scanned to its end, is the answer `Endless`.
* The order in which a hash map or hash set is walked is arbitrary: loops pick any remaining key, and results say
  "each once, in some order".
* The clock rules and the batch tests that `LB::report`, `reportSomeSucc` and `reportSomeErr` repeat are one
  method each (`ApplyClock`, `TestSuccesses`, `TestFailures`).
* `RouteLB::report` asserts that a request with a cost is a failure; the model's methods require it.

Where the code and its documentation differ, the code is modelled:

* The comments in `lbagent/include/RouteLb.h` say that the real counters are reset once per report
  period; `LB::report2Rpter` does not reset them, and neither does `Report2Rpter`.
* The documented settings (180, 15, 3 minutes) are those of the shipped configuration; `DEFAULTS` holds
  the defaults in the code (270, 5, 300 seconds).
* A slow failure is documented to count as n failures; it does so exactly when `FailuresAligned` holds.
* Ports and command ids are ints, but a negative one does not survive the decoding of its key; `DecodedKey`,
  `RowsReachAgent` and `AnnouncedModule` say so in both directions.
* The loader remembers a new version before it reloads, so the changes of a version whose reload fails are announced
  only with the next version; `Loader.Round` keeps this.

## Model

| member | source | states |
|---|---|---|
| Words.PackHalves | lbagent/src/RouteLb.cc:210 | the two halves of a packed key, for all ints: a negative low half borrows one from the high half |
| Words.PackInjective | lbagent/src/RouteLb.cc:551 | no two pairs of 32-bit ints share a key |
| Words.PackRoundTrip | dnsserver/src/Server.cc:92-93 | decoding a key gives the packed pair back if and only if the low half is not negative |
| Words.PackOfUint32 | dnsserver/src/Route.cc:56-60 | reading the ip into an unsigned int first does not change the key |
| Words.ConversionsWrap | dnsserver/src/Server.cc:92-93 | conversions to 32 bits keep a number up to multiples of 2^32 |
| Words.DecodedKey | dnsserver/src/Server.cc:46-49 | a key survives decoding and packing if and only if its low half is not negative |
| Rates.ShareAboveRate | lbagent/src/RouteLb.cc:240-241 | a single report's rate test holds exactly from the count `FirstOver` on |
| Rates.NeededIsLeast | lbagent/src/RouteLb.cc:363-367 | truncating and then increasing gives the least count that reaches the rate, for every count and rate |
| Rates.NeededVersusFirstOver | lbagent/src/RouteLb.cc:467-471 | the batch's bound and the single report's bound differ by at most one, and not at all unless the rate is hit exactly |
| Hosts.HI.constructor | lbagent/include/RouteLb.h:16-29 | a new host is idle with the initial credit and a window that starts now |
| Hosts.HI.Tally | lbagent/src/RouteLb.cc:214-231 | one outcome changes its virtual, real and consecutive counters and nothing else |
| Hosts.HI.CheckWindow | lbagent/src/RouteLb.cc:74-86 | the counter of bad windows grows on a bad window and is cleared by any other; the answer is whether it reached its limit |
| Hosts.HI.TestSuccesses | lbagent/src/RouteLb.cc:352-372 | recovery exactly if the batch covers the recovery step, with the rest of the batch left over; the unsigned subtraction does not wrap |
| Hosts.HI.TestFailures | lbagent/src/RouteLb.cc:456-476 | the same for failures and overload |
| Hosts.HI.ResetIdle | lbagent/src/RouteLb.cc:88-100 | everything is reset but the address and the counter of bad windows |
| Hosts.HI.SetOverload | lbagent/src/RouteLb.cc:102-113 | the overloaded state, window start kept, counter of bad windows cleared |
| Hosts.CountKeepsHealth | lbagent/src/RouteLb.cc:339-388 | counting and testing a report of any kind and size keeps ledger, limits and address |
| Hosts.StepKeepsHealth | lbagent/src/RouteLb.cc:208-330 | a whole report keeps the ledger (idle: err = rErr, succ >= initial + rSucc; overloaded: succ = rSucc, err >= initial + rErr) and the limits |
| Hosts.StepIsRecent | lbagent/src/RouteLb.cc:288-329 | after any report the host is inside its window or its waiting time |
| Hosts.FlipIsFinal | lbagent/src/RouteLb.cc:247-259 | the clock leaves alone a host whose flag its counts have just changed, so one report changes the flag at most once |
| HostRules.BadWindowMeans | lbagent/src/RouteLb.cc:74-86 | a window is bad if and only if it saw a call and failures x (1 - rate) >= rate x successes |
| HostRules.CountsInFields | lbagent/src/RouteLb.cc:214-286 | every field after counting and the count-based tests, whether the flag changes or not |
| HostRules.WaitEndsOverload | lbagent/src/RouteLb.cc:316-328 | any report at or after the waiting limit makes an overloaded host idle, with a window that starts now |
| HostRules.FlagAfterReport | lbagent/src/RouteLb.cc:208-330 | a host is overloaded after a report exactly if it was and neither enough successes nor the limit ended it, or failures or the last of too many bad windows began it |
| HostRules.FieldsWithoutFlip | lbagent/src/RouteLb.cc:288-313 | every field of a host that keeps its flag: counted up, or a new window that starts now with the initial credit |
| HostRules.FieldsAfterFlip | lbagent/src/RouteLb.cc:88-113 | every field of a host whose flag changes, with the rest of a batch behind the reset |
| HostRules.NewHostInFields | lbagent/include/RouteLb.h:16-29 | every field of a new host |
| QueueRules.RefusedExactly | lbagent/src/RouteLb.cc:126-145 | a request is refused if and only if no host is idle and the probe counter is below `probeNum` |
| QueueRules.ProbedExactly | lbagent/src/RouteLb.cc:160-173 | the picked host is overloaded if and only if a probe is due, and then is in the down queue, else in the running queue |
| QueueRules.SelectionInFields | lbagent/src/RouteLb.cc:124-188 | who is picked, both queues and the probe counter after a selection, in each of its cases |
| QueueRules.ReportInFields | lbagent/src/RouteLb.cc:253-283 | a report changes its host alone; the host keeps its place or moves to the back of the other queue, and nobody else moves |
| QueueRules.WaitEndsInBalancer | lbagent/src/RouteLb.cc:316-328 | a host whose wait is over stands behind all running hosts after any report on it |
| QueueRules.RefreshWritesTimes | lbagent/src/RouteLb.cc:587-593 | the reporter's period starts with the first hosts only, the probe counter stays |
| QueueRules.ScalarsInFields | lbagent/src/RouteLb.cc:606-613 | the remaining operations write one field each, and when |
| WindowHistory.CounterIsLongestBadSuffix | lbagent/src/RouteLb.cc:74-86 | in every run, `windErrCnt` is the length of the longest suffix of bad windows since the host last became overloaded |
| WindowHistory.WindowRule | lbagent/src/RouteLb.cc:292-312 | a report that closes a window overloads the host exactly if that window completes `windErrLim` bad ones in a row |
| WindowHistory.RealCountersSinceReset | lbagent/src/RouteLb.cc:214-231 | in every run the real counters are the successes and failures reported since the last reset |
| WindowHistory.HostInBalancer | lbagent/src/RouteLb.cc:208-330 | in every run of a balancer a host is what its own reports made it; selections, updates and other hosts' reports do not matter |
| WindowHistory.CounterInBalancer | lbagent/src/RouteLb.cc:295-311 | the window history result for a host inside every run of a balancer |
| BatchReports.OneFailure | lbagent/src/RouteLb.cc:223-260 | what a single failure does, with the rate test as a bound on the count |
| BatchReports.OneSuccess | lbagent/src/RouteLb.cc:214-286 | what a single success does, with the rate test as a bound on the count |
| BatchReports.RepeatedFailures | lbagent/src/RouteLb.cc:235-260 | n single failures on an idle host in closed form: plain counting before the first trigger, overload with the rest after it |
| BatchReports.RepeatedSuccesses | lbagent/src/RouteLb.cc:261-286 | n single successes on an overloaded host in closed form |
| BatchReports.BatchedFailures | lbagent/src/RouteLb.cc:435-492 | for every idle host inside its window and every n >= 1: a batch and n single failures agree if and only if `FailuresAligned` |
| BatchReports.BatchedFailuresWithinLimit | lbagent/src/RouteLb.cc:459-476 | they agree whenever the consecutive limit is reached no later than the rate |
| BatchReports.FailuresWhileOverloaded | lbagent/src/RouteLb.cc:449-452 | on an overloaded host they always agree |
| BatchReports.BatchedSuccesses | lbagent/src/RouteLb.cc:332-389 | for every overloaded host before its waiting limit and every n >= 1: a batch and n single successes agree if and only if `SuccessesAligned` |
| BatchReports.BatchedSuccessesWithinLimit | lbagent/src/RouteLb.cc:355-372 | they agree whenever the consecutive limit is reached no later than the rate |
| BatchReports.SuccessesWhileIdle | lbagent/src/RouteLb.cc:345-348 | on an idle host they always agree |
| BatchReports.BatchedFailuresOnQueues | lbagent/src/RouteLb.cc:479-490 | in a whole balancer: same standing of the host and same two queues if and only if `FailuresAligned` |
| BatchReports.BatchedSuccessesOnQueues | lbagent/src/RouteLb.cc:375-386 | in a whole balancer: same standing of the host and same two queues if and only if `SuccessesAligned` |
| BatchReports.BatchedFailuresWithinLimitOnQueues | lbagent/src/RouteLb.cc:459-490 | in a whole balancer they agree whenever the consecutive limit is reached no later than the rate |
| BatchReports.BatchedSuccessesWithinLimitOnQueues | lbagent/src/RouteLb.cc:355-386 | the mirror statement for successes |
| BatchReports.BatchedFailuresCanDiffer | lbagent/src/RouteLb.cc:467-475 | a reachable host under the default settings that five single failures overload and one report of five does not |
| LoadBalancer.AfterChoiceKeepsInv | lbagent/src/RouteLb.cc:124-188 | a selection keeps the partition, the counters and the bound on the probe counter |
| LoadBalancer.ReportedKeepsInv | lbagent/src/RouteLb.cc:208-330 | a report of any kind on any address keeps the invariant |
| LoadBalancer.RefreshedKeepsInv | lbagent/src/RouteLb.cc:538-594 | a route update keeps the invariant, whatever duplicates it has |
| LoadBalancer.LbRun | lbagent/include/RouteLb.h:50-104 | every run of operations from a state with the invariant ends in one |
| LoadBalancer.QueuesListEveryHostOnce | lbagent/src/RouteLb.cc:621-642 | both queues together list every host exactly once, so a front is only taken when there is one |
| LoadBalancer.ReportLeavesHostFresh | lbagent/src/RouteLb.cc:288-329 | after a report its host is idle inside its window or overloaded for less than the waiting limit |
| LoadBalancer.RefreshedInSteps | lbagent/src/RouteLb.cc:546-593 | adding newcomers one by one and removing the missing one by one is the reconciliation stated as one value |
| LoadBalancer.RefreshReconcilesHosts | lbagent/src/RouteLb.cc:548-586 | the hosts are those of the response; survivors keep all counters, newcomers start idle |
| LoadBalancer.RefreshWritesVersion | lbagent/src/RouteLb.cc:587-593 | the clock is written as version exactly if the set of hosts changes; time and status always |
| LoadBalancer.RefreshKeepsOrder | lbagent/src/RouteLb.cc:554-586 | survivors keep their order in both queues; newcomers stand behind all of them, in order of first appearance |
| Fairness.DownRankIsWithin | lbagent/src/RouteLb.cc:163-173 | an overloaded host's rank is between 0 and (p + 1)(probeNum + 1) |
| Fairness.SelectionLowersDownRank | lbagent/src/RouteLb.cc:124-188 | a selection that returns another host, or none, lowers the rank by exactly one |
| Fairness.OthersNeverRaiseDownRank | lbagent/src/RouteLb.cc:254-257 | no report, update or other operation raises the rank while the host stays overloaded |
| Fairness.DownRankBoundsSelections | lbagent/src/RouteLb.cc:124-188 | over a run without a probe of the host, selections + final rank <= first rank |
| Fairness.OverloadedHostIsTried | lbagent/src/RouteLb.cc:124-188 | a host that stays overloaded is tried within (p + 1)(probeNum + 1) selections, whatever is interleaved |
| Fairness.SelectionLowersRunningRank | lbagent/src/RouteLb.cc:149-185 | a selection that returns another host lowers an idle host's rank |
| Fairness.OthersNeverRaiseRunningRank | lbagent/src/RouteLb.cc:281-283 | nothing else raises it while the host stays idle |
| Fairness.IdleHostIsReturned | lbagent/src/RouteLb.cc:147-186 | a host that stays idle is returned within 2(p + 1) selections, whatever is interleaved |
| Balancer.AnswerMeans | lbagent/src/RouteLb.cc:124-188 | code 0 with the front of the down queue if a probe is due, else of the running queue, and -10000 with no host if there is neither |
| Balancer.ResultsCoverEveryHost | lbagent/src/RouteLb.cc:621-642 | a status message names every host exactly once, with its real successes as successes, its real failures as failures and the flag of its queue |
| Balancer.LB.constructor | lbagent/include/RouteLb.h:53-59 | a new balancer is valid, empty and being pulled |
| Balancer.LB.GetHost | lbagent/src/RouteLb.cc:124-188 | the four cases of a selection give the answer of `Choose` and the state of `AfterChoice` |
| Balancer.LB.GetRoute | lbagent/src/RouteLb.cc:190-197 | every host of the map once |
| Balancer.LB.MoveToDown | lbagent/src/RouteLb.cc:253-257 | the host becomes overloaded and moves to the back of the other list; nothing else moves |
| Balancer.LB.MoveToRunning | lbagent/src/RouteLb.cc:279-283 | the host becomes idle and moves to the back of the other list; nothing else moves |
| Balancer.LB.ApplyClock | lbagent/src/RouteLb.cc:288-329 | closing a window or ending the wait, with the lists following the flag |
| Balancer.LB.CountOutcome | lbagent/src/RouteLb.cc:214-286 | one outcome counted and tested, with the lists following the flag |
| Balancer.LB.CountSuccesses | lbagent/src/RouteLb.cc:338-389 | a batch of successes counted and tested, the rest added behind the reset |
| Balancer.LB.CountFailures | lbagent/src/RouteLb.cc:442-492 | a batch of failures counted and tested, the rest added behind the reset |
| Balancer.LB.Report | lbagent/src/RouteLb.cc:208-330 | valid afterwards; the state is `Reported` for one outcome, unchanged for an unknown address |
| Balancer.LB.ReportSomeSucc | lbagent/src/RouteLb.cc:332-433 | valid afterwards; the state is `Reported` for a batch of successes |
| Balancer.LB.ReportSomeErr | lbagent/src/RouteLb.cc:435-536 | valid afterwards; the state is `Reported` for a batch of failures |
| Balancer.LB.AddAll | lbagent/src/RouteLb.cc:548-568 | newcomers are appended in order; tells whether there were any |
| Balancer.LB.RemoveHost | lbagent/src/RouteLb.cc:577-585 | the host leaves the map and the list its flag names |
| Balancer.LB.RemoveMissing | lbagent/src/RouteLb.cc:569-586 | exactly the hosts outside the response are removed; tells whether there were any |
| Balancer.LB.Update | lbagent/src/RouteLb.cc:538-594 | valid afterwards; the state is `Refreshed`; only new objects join the footprint |
| Balancer.LB.Pull | lbagent/src/RouteLb.cc:596-604 | one request is queued and the status says so |
| Balancer.LB.Report2Rpter | lbagent/src/RouteLb.cc:606-644 | one message with time, own ip and `Results` exactly if there are hosts and the period is over; real counters stay |
| Agent.ModStep | lbagent/src/RouteLb.cc:652-885 | every request, route or reconnect keeps the invariant of its module's entry |
| Agent.ErrCntMeans | lbagent/src/RouteLb.cc:703-713 | a failure counts once below 200 ms, once per full 100 ms up to 5 s, and 50 times above |
| Agent.OutcomeMeans | lbagent/src/RouteLb.cc:721-724 | below 200 ms a report goes by its return code, above it is that many failures |
| Agent.PullsExactly | lbagent/src/RouteLb.cc:669-674 | a known module is pulled if and only if one of the three requests finds its route complete and older than the update period (for two of them: with hosts), and then it is marked as being pulled |
| Agent.StepOnView | lbagent/src/RouteLb.cc:652-885 | what each operation does to the set of hosts, version, status and update time, in terms of those fields, and that it does nothing else to them |
| PullProtocol.PullStep | lbagent/src/RouteLb.cc:669-674 | pull sent + pull due afterwards <= pull due before + 1 for an update + 1 for a reconnect |
| PullProtocol.PullBound | lbagent/src/RouteLb.cc:596-604 | in every run, through deletion and re-creation of the entry: pulls <= 1 + updates + reconnects |
| PullProtocol.OrphanedExactly | lbagent/src/RouteLb.cc:659-664 | an entry is empty and not being pulled if and only if a reconnect lost its first pull and nothing since has answered or repeated it |
| PullProtocol.AbortsExactly | lbagent/src/RouteLb.cc:659-664 | in every run a request aborts if and only if it is one that asserts and the first pull of its module was lost |
| PullProtocol.NoAbortWithoutDisconnect | lbagent/src/RouteLb.cc:802-808 | without a reconnect the assertion on empty entries never fails |
| PullProtocol.DisconnectCanAbort | lbagent/src/RouteLb.cc:874-885 | request, reconnect, request: the assertion fails |
| RouteTable.ClearedIsDisconnect | lbagent/src/RouteLb.cc:877-883 | clearing the whole table is one reconnect step of every entry |
| RouteTable.HostAnswerMeans | lbagent/src/RouteLb.cc:652-694 | the answer to a request for a host, with its code, for every entry and for none |
| RouteTable.CacheAnswerMeans | lbagent/src/RouteLb.cc:795-851 | version, flag and hosts of a client's answer for every entry and for none; hosts exactly if the versions differ |
| RouteTable.RouteLB.constructor | lbagent/src/RouteLb.cc:646-650 | an empty, valid table |
| RouteTable.RouteLB.PullIfStale | lbagent/src/RouteLb.cc:669-674 | a pull is queued exactly if the route is complete and older than the update period |
| RouteTable.RouteLB.AddEntry | lbagent/src/RouteLb.cc:680-689 | a new entry being pulled, one request queued, no object shared with another entry |
| RouteTable.RouteLB.GetHost | lbagent/src/RouteLb.cc:652-694 | the module's entry makes its step, all others stay; the answer and the queued pull are those of the old entry |
| RouteTable.RouteLB.Report | lbagent/src/RouteLb.cc:696-729 | the same for a report, a slow failure counting once per 100 ms up to 50; the status message describes the new state |
| RouteTable.RouteLB.BatchReport | lbagent/src/RouteLb.cc:731-752 | the same for a batch, one status message at most |
| RouteTable.RouteLB.GetRoute | lbagent/src/RouteLb.cc:754-793 | every host of the module once, or an empty list and a new entry |
| RouteTable.RouteLB.CacheGetRoute | lbagent/src/RouteLb.cc:795-851 | version and flag of the module, its hosts exactly if the client's version differs, -1 if there are none |
| RouteTable.RouteLB.Update | lbagent/src/RouteLb.cc:853-872 | an empty route deletes the entry, any other reconciles it, an unknown module is ignored |
| RouteTable.RouteLB.ClearPulling | lbagent/src/RouteLb.cc:874-885 | no entry is being pulled any more, nothing else changes |
| AgentRuns.ModulesAreIndependent | lbagent/src/RouteLb.cc:652-885 | in every run of the table an entry is what its own module's events made it |
| Shards.ShardIsPartOfWhole | lbagent/src/DssClient.cc:13-15 | a table holds the entries one undivided table would hold for the modules that select it, and no others |
| Shards.ShardingIsInvisible | lbagent/src/DssClient.cc:13-15 | in every run the three tables have no module in common and together are what one table would be |
| Shards.ShardsAreApart | lbagent/src/DssClient.cc:13-15 | tables of different numbers have no module in common, even after unrelated histories |
| Shards.BackupBringsEveryHost | lbagent/src/RouteLb.cc:887-913 | after three unrelated histories, one for each table when it was saved, the files bring every module's hosts as they were in its own table, each once, and nothing else |
| Shards.RecvRoute | lbagent/src/DssClient.cc:7-16 | the selected table makes its update step, the other two are unchanged |
| Shards.WhenConnected | lbagent/src/DssClient.cc:33-37 | all three tables are cleared of pulls |
| ClientCache.ClientStepKeepsInv | api/cpp/elbApi/elbApi.cc:204-337 | after every call the total is the sum of the counters, the counters belong to the listed hosts and there is a host to return |
| ClientCache.AfterFetchKeepsInv | api/cpp/elbApi/elbApi.cc:291-297 | taking a reply keeps the invariant if and only if it does not zero a total over counters that are not zero |
| ClientCache.ReplyIsTaken | api/cpp/elbApi/elbApi.cc:255-297 | a reply that arrives removes the item or gives it the reply's version and flag |
| ClientCache.ListingAfterStep | api/cpp/elbApi/elbApi.cc:260-290 | an item lists the hosts of the last new version it got, in some rotation |
| ClientCache.FlushEmitsAll | api/cpp/elbApi/elbApi.cc:301-337 | a flush sends what is held for every host and leaves nothing |
| ClientCache.CountedExactly | api/cpp/elbApi/cacheLayer.cc:16-24 | a host has a counter if and only if the item lists it |
| ClientCache.ConservedByStep | api/cpp/elbApi/elbApi.cc:86-115 | listed successes + held before = sent + held after, for every call and host |
| ClientCache.SuccessesAreConserved | api/cpp/elbApi/elbApi.cc:204-299 | over every run: successes reported on listed hosts of a module without overloaded hosts = sent + held; no refresh, removal or failing report drops a count |
| ClientCache.NothingHeldAfterClose | api/cpp/elbApi/elbApi.cc:55-64 | after the final flush every such success has been sent |
| ClientRules.SuccessIsHeld | api/cpp/elbApi/cacheLayer.cc:19-23 | every success on a listed host of a module without overloaded hosts adds one for that host and for no other |
| ClientRules.OtherSuccess | api/cpp/elbApi/cacheLayer.cc:19-23 | any other success changes nothing in the cache |
| ClientRules.FlushedInFields | api/cpp/elbApi/elbApi.cc:301-323 | a flush zeroes the total and all counters and nothing else |
| ClientRules.FlushesExactly | api/cpp/elbApi/elbApi.cc:105-107 | when successes are sent: an item two seconds old at a request, a failure without overloaded hosts, the end |
| ClientRules.OthersFlush | api/cpp/elbApi/elbApi.cc:357-363 | a failure and the end leave the item flushed |
| ClientRules.FetchInFields | api/cpp/elbApi/elbApi.cc:255-297 | every field of the item after a reply: missing module, new version, same version |
| ClientRules.GetInFields | api/cpp/elbApi/elbApi.cc:86-124 | the answer and the item after a request: which error, the agent, or the first host, which goes to the end |
| ElbClient.CacheUnit.GetHost | api/cpp/elbApi/cacheLayer.cc:4-14 | the first host, which goes to the end |
| ElbClient.CacheUnit.Report | api/cpp/elbApi/cacheLayer.cc:16-24 | a listed host's counter and the total grow by one, an unlisted host changes nothing |
| ElbClient.CacheUnit.BatchReportRes | api/cpp/elbApi/elbApi.cc:301-337 | nothing is sent for a total of zero, else one message with each non-zero counter once; all counters are zero afterwards |
| ElbClient.CacheUnit.DrainCounters | api/cpp/elbApi/elbApi.cc:309-323 | the results carry each non-zero counter once, in any order, and all counters are zeroed |
| ElbClient.Client.StoreReply | api/cpp/elbApi/elbApi.cc:255-297 | the item follows `AfterFetch`, other items are untouched |
| ElbClient.Client.FillRoute | api/cpp/elbApi/elbApi.cc:277-289 | the list is the route and every listed host has a zero counter |
| ElbClient.Client.GetRoute4Cache | api/cpp/elbApi/elbApi.cc:204-299 | the cache differs from before in the module's item only, a lost exchange changes nothing, and the invariant is lost if and only if a reply with the item's version meets a total that is not zero |
| ElbClient.Client.AskCache | api/cpp/elbApi/elbApi.cc:86-124 | answer, new cache and messages of a request to the cache, for a lost and a successful exchange |
| ElbClient.Client.ApiGetHost | api/cpp/elbApi/elbApi.cc:70-202 | return code and host, new cache, backup table and messages: from the files for a dead agent, else from the cache or, for a module with overloaded hosts, from the exchange with the agent |
| ElbClient.Client.ApiReportRes | api/cpp/elbApi/elbApi.cc:339-394 | new cache and messages of a report: nothing for a success the cache takes, else the call, behind a flush if it failed |
| ElbClient.Client.Close | api/cpp/elbApi/elbApi.cc:55-64 | every item is flushed, each module's messages exactly once |
| ClientMessages.FlushSends | api/cpp/elbApi/elbApi.cc:301-337 | the messages of a flush name the module and report, for every host, exactly the successes held for it |
| ClientMessages.ReportSends | api/cpp/elbApi/elbApi.cc:366-394 | what a report sends: nothing if it is held, else the call as reported, with its time if it failed, behind what was held |
| ClientMessages.ClosedItems | api/cpp/elbApi/elbApi.cc:55-64 | at the end every item makes the closing step of its module |
| ClientMessages.ClosedMessages | api/cpp/elbApi/elbApi.cc:55-64 | the last messages contain every module's flush, one behind the other |
| Replica.ReplyOfIsAnswer | lbagent/src/RouteLb.cc:802-833 | the reply used in the runs is one the agent's method may give |
| Replica.EveryRunIsTraced | lbagent/src/RouteLb.cc:587-593 | in every run the agent's hosts and version, and the client's list and version, were written together by some update |
| Replica.SameVersionSameHosts | api/cpp/elbApi/elbApi.cc:260-297 | if changes with the same stamp brought the same hosts, equal versions mean the same hosts, in every run with any losses |
| Replica.ExchangeAgrees | lbagent/src/RouteLb.cc:809-833 | under the same condition, after every successful exchange version, hosts and overload flag agree, or both sides have no module |
| Replica.SharedStampDisagrees | lbagent/src/RouteLb.cc:592-593 | two changes in one second: for any two different host sets a client keeps the old one under the agent's version |
| Replica.AgentRepliesAreUsable | lbagent/src/RouteLb.cc:809-833 | the agent's replies always satisfy what the client's cache needs of them |
| Replica.ConservedWithAgent | api/cpp/elbApi/elbApi.cc:86-124 | with a real agent: the client never takes a host from an empty list, and accepted = sent + held |
| Stamps.RouteOfSchedule | lbagent/src/RouteLb.cc:809-824 | a client's requests change neither the hosts nor the version that the agent's own events gave it |
| Stamps.WritesInSchedule | lbagent/src/RouteLb.cc:587-593 | every change of hosts in a run with a client is one of the agent's schedule |
| Stamps.Misled | lbagent/src/RouteLb.cc:592-593 | in every schedule, two changes with one stamp and different hosts mislead a client that fetches between them |
| Stamps.StampsDecideAgreement | lbagent/src/RouteLb.cc:592-593 | for every schedule: all clients agree whenever versions are equal, if and only if changes with one stamp brought the same hosts |
| RouteData.GroupIsExact | dnsserver/src/Route.cc:50-63 | a host is listed for a module if and only if the table has the row; a module is known if and only if it has a row |
| RouteData.Route.constructor | dnsserver/src/Route.cc:111-144 | the first load fills the buffer that is read |
| RouteData.Route.Fill | dnsserver/src/Route.cc:50-63 | the row-by-row loop produces the grouping of all rows |
| RouteData.Route.GetHosts | dnsserver/src/Route.cc:12-25 | the hosts of the module in the buffer that is read, none for an unknown one |
| RouteData.Route.Reload | dnsserver/src/Route.cc:28-67 | the spare buffer is refilled or left empty by a failed query; the buffer that is read does not change |
| RouteData.Route.Swap | dnsserver/src/Route.cc:70-78 | the two buffers change roles |
| Subscriptions.SubscribedExactly | dnsserver/src/SubscribeList.cc:4-23 | subscribing and unsubscribing change exactly one pair and leave no empty entries |
| Subscriptions.UnsubscribeUndoes | dnsserver/src/SubscribeList.cc:11-23 | unsubscribing restores the book as it was before a new subscription |
| Subscriptions.PushedExactly | dnsserver/src/SubscribeList.cc:33-44 | after a push exactly the old pairs wait and those of changed modules with their subscribers |
| Subscriptions.FetchSplits | dnsserver/src/SubscribeList.cc:57-68 | a fetch splits the waiting pairs into taken and kept: none lost, none in both, none new |
| Subscriptions.SubscribeList.Subscribe | dnsserver/src/SubscribeList.cc:4-9 | the connection is added to the module's entry |
| Subscriptions.SubscribeList.Unsubscribe | dnsserver/src/SubscribeList.cc:11-23 | the connection is removed, and the entry with its last connection |
| Subscriptions.SubscribeList.Push | dnsserver/src/SubscribeList.cc:26-46 | the list of waiting changes is `Pushed` of the old one |
| Subscriptions.SubscribeList.FetchPush | dnsserver/src/SubscribeList.cc:52-70 | hands over the entries of listening connections and keeps the others |
| DnsMachine.NextKeepsSnapshots | dnsserver/src/Route.cc:28-78 | every step keeps: readers see one complete load, the spare buffer the rows so far |
| DnsMachine.NextKeepsMirror | dnsserver/src/Server.cc:29-37 | every step keeps: a connection is booked for a module if and only if the module is in its interests, and no entry is empty |
| DnsMachine.ReadersSeeOnlySwaps | dnsserver/src/Route.cc:28-78 | only a swap changes what a lookup returns, not a failed reload nor one in progress |
| DnsMachine.EveryRunKeepsInvariants | dnsserver/src/Server.cc:29-75 | both invariants hold in every interleaving |
| DnsMachine.LookupsAreSnapshots | dnsserver/src/Route.cc:12-25 | in every interleaving a lookup returns exactly what the latest complete load lists |
| DnsMachine.WaitingExactly | dnsserver/src/SubscribeList.cc:26-70 | a change waits if and only if it was announced while the connection subscribed and the connection's loop has not fetched since |
| DnsMachine.WorkExactly | dnsserver/src/Server.cc:84-113 | a loop owes a message if and only if it took the change and has not sent it since |
| DnsMachine.FetchTakesOwn | dnsserver/src/Server.cc:84-86 | a fetch takes exactly what waits for the connections of its own loop, and nothing else changes |
| DnsMachine.LoadsGrow | dnsserver/src/Route.cc:253-262 | loads are only ever added, so readers never go back to an older one |
| DnsMachine.DeliveredWasAnnounced | dnsserver/src/Route.cc:253-262 | whatever is sent was announced while the connection subscribed, and what a lookup then returns is what a load says that was current at the announcement or is later |
| DnsMachine.SubscribedUnlessGone | dnsserver/src/Server.cc:64-75 | a subscription lasts exactly until it is given up and not taken out again |
| DnsMachine.DeliveredToSubscriber | dnsserver/src/Server.cc:84-111 | a change is sent to a descriptor that does not subscribe exactly if the subscription was given up since the announcement and not taken out again |
| DnsMachine.StrangerIsSentChange | dnsserver/src/SubscribeList.cc:11-23 | a run in which a connection that asked for nothing is sent a change |
| DnsRuns.AfterThen | dnsserver/src/Route.cc:243-281 | the machine's runs can be cut into the runs of its handlers |
| DnsRuns.ReloadRun | dnsserver/src/Route.cc:253-262 | start, one step per row, swap and announcement together are one reload |
| DnsRuns.CloseRun | dnsserver/src/Server.cc:64-75 | giving up each interest and disconnecting together are one closing |
| DnsRuns.PushRun | dnsserver/src/Server.cc:84-113 | a fetch and the delivery of all it took together are one push |
| DnsServer.AnnouncedModule | dnsserver/src/Server.cc:89-97 | the message goes to the waiting connection, and its module is the one that changed if and only if its cmdid is not negative |
| DnsServer.Connection.constructor | dnsserver/src/Server.cc:58-62 | a new connection has no interests |
| DnsServer.Decode | dnsserver/src/Server.cc:44-51 | the reply names every host once, decoded |
| DnsServer.GetRoute | dnsserver/src/Server.cc:15-56 | the connection is subscribed once, the reply names the module's hosts, and the call is one request step |
| DnsServer.ClearSubscribe | dnsserver/src/Server.cc:64-75 | exactly the closing connection's interests leave the book, and the call is a run of unsubscribe steps and a disconnect |
| DnsServer.PushChange | dnsserver/src/Server.cc:77-114 | one message for each waiting pair of the listening connections and no other, the pairs are gone from the list, and the call is a fetch and its deliveries |
| DnsServer.ChangesUpToExactly | dnsserver/src/Route.cc:185-214 | the changes loaded are exactly the modules the log names up to the version |
| DnsServer.Loader.LoadVersion | dnsserver/src/Route.cc:147-181 | failure, no change or a new version, which is remembered |
| DnsServer.Loader.LoadChanges | dnsserver/src/Route.cc:183-216 | the changes up to the remembered version in the log's order, none for a failed query |
| DnsServer.Loader.Round | dnsserver/src/Route.cc:243-281 | only a complete load is swapped in; changes are pushed only behind a swap for a new version; a failed load changes nothing readers or subscribers see; the call is a run of the loader's steps |
| TableToAgent.DecodedFrom | dnsserver/src/Server.cc:46-49 | which key is decoded to a given address, for all ports |
| TableToAgent.NamedHosts | dnsserver/src/Server.cc:44-51 | which keys a reply brings, for all ports |
| TableToAgent.RowsReachAgent | lbagent/src/RouteLb.cc:853-872 | for every table, module and address: the agent has the address after the update if and only if the table has the row, with the ip one more where the port is negative; also for a module without rows |
| TableToAgent.TableReachesAgent | lbagent/src/RouteLb.cc:853-872 | the agent has exactly the module's rows if and only if none of them has a negative port, for every table of fewer than 2^32 rows |
| TableToAgent.NegativePortIsShifted | dnsserver/src/Server.cc:48-49 | a table of one row with a negative port: the agent has another host |
| RouteText.ReadPrintedFields | lbagent/src/RouteLb.cc:204 | four printed decimals are scanned back, up to the end of their line, whatever the variables held |
| RouteText.DigitsAreDecimal | lbagent/src/RouteLb.cc:204 | numbers are printed in base ten |
| RouteText.PrintedLine | lbagent/src/RouteLb.cc:204 | the form of a line: the module's two ids, ip and port, with blanks between |
| RouteText.ReadsWhatWasPrinted | api/cpp/elbApi/StaticRoute.h:28-36 | scanning what was printed gives the same entries in the same order |
| RouteText.BrokenLine | api/cpp/elbApi/StaticRoute.h:27-36 | a line that breaks off takes the missing numbers from what the variables held |
| RouteText.StraySign | api/cpp/elbApi/StaticRoute.h:28 | a sign without a number is taken away and the next call goes on behind it |
| RouteText.StoppedLine | api/cpp/elbApi/StaticRoute.h:28 | any other character keeps the loop from ending |
| Persist.ReaderIsExact | api/cpp/elbApi/StaticRoute.h:28-36 | from distinct entries the reader has exactly their addresses, each once, and knows exactly their modules |
| Persist.AnswerIsOwnHost | api/cpp/elbApi/StaticRoute.h:70-77 | a known module is answered with one of its own hosts, each of which some choice takes; an unknown one with none |
| Persist.StaticRoute.ReadFile | api/cpp/elbApi/StaticRoute.h:24-38 | for any text: whether the loop ends, and if so the table is extended by what was scanned, in order; a missing file is skipped |
| Persist.StaticRoute.GetHost | api/cpp/elbApi/StaticRoute.h:20-78 | for any files: they are read only into an empty table; the answer is the chosen host of the module, none for an unknown one, or no answer at all |
| Persist.StaticRoute.FreeData | api/cpp/elbApi/StaticRoute.h:80 | the table is empty, so the next request reads the files again |
| Persist.ThreeFilesRoundTrip | api/cpp/elbApi/StaticRoute.h:22-69 | files of three tables without a common module, each written or never written, are read back as every host of every module once |
| Persist.PersistModule | lbagent/src/RouteLb.cc:199-206 | appends one line per host of the module, each host once |
| Persist.WriteTable | lbagent/src/RouteLb.cc:903-911 | the file's text is the printed form of entries that name every host of every module once |
| Persist.PersistRoute | lbagent/src/RouteLb.cc:887-913 | the table's number selects the first, second or third file; that file is written if it could be opened, and no other |

## Left out

- Sockets, the reactor and protobuf: an exchange is one request with its reply, or its loss on either way. Late and mismatched replies are losses, and a failed `sendto` counts as sent.
- The database: a load is a sequence of rows or a failed query. The deletion of `ChangeLog` rows, and the race with a writer of that table, are not modelled.
- The rounding of floating-point rates, a clock that goes backwards between the two reads of one call, and 32-bit wrap-around of counters.
- Reads of host objects after the agent's lock is released (`RouteLb.cc:772-778`, `:827-833`): calls are atomic.
- The reporter service, the heartbeat, logging, configuration files, conversion of addresses to text, and the Python client, which repeats the C++ cache.
- The log lines of the balancer.
- Running out of memory, which ends the original program.
- `CacheLayer` as a class of its own: it is the map in `ElbClient.Client`.
- ElbClient.Client.ApiGetHost: requires that a new version comes with hosts, which `Replica.AgentRepliesAreUsable` proves of the agent; the original takes the front of an empty list otherwise.
- ElbClient.Client.GetRoute4Cache: the same requirement.
- Persist.StaticRoute.GetHost: the random choice is a parameter, and so are the values that the reader's uninitialised variables hold.
- RouteText.ReadPrintedFields: numbers of more than 64 bits, which the C library saturates, do not occur in printed files and are wrapped here.
- Shards.RecvRoute: only for module ids with a sum that is not negative, because any other sum selects no table and the original reads outside its array.
- DnsServer.Loader.Round: the stored version, the rows and the log are the outcomes of three queries, each of which may fail.
- Replica.ExchangeAgrees: time stamps are not negative, because -1 stands for a missing module.
