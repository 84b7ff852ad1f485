# A verified model of the replicated key-value store

The repository is a key-value store: a load balancer accepts clients' HTTP
connections, routes each key to two of several backends on a consistent-hash ring,
replicates writes, fails over reads, and, when a backend comes back, copies to it
what it missed before it serves reads again. This project models that system in
Dafny, from the bytes of a client connection down to the lists inside each
backend's cache, and proves what it guarantees.

## What is proved

- **Every GET returns the last write** (`Guarantees`, `ClusterSafety`). The running
  system is a step system (`Clusters`): client requests, crashes, restarts, and the
  health checker's thread, whose passes and recoveries advance one program point at
  a time, so that anything may fall between a ping and the reaction to it, and
  between the fetch and the sync of a key. Over runs of any length, with any number
  of backends and keys, every GET is answered with the value of one abstract map; a
  backend agrees with its peer when it is promoted; every write has candidates, is
  refused exactly when none of them answers, although it may then have been done
  (`DoneYetRefused`), and is confirmed whenever a healthy home of its key answers.
- **Exactly when** (`LostWrites`, `Returning`). Recovery copies only what is present
  and not empty, so a DELETE, or a write of "", that a home backend of the key misses
  can come back; and it syncs unconditionally, so a write between the fetch and the
  sync of its key can be undone. `AllowedIsExact` states the exact condition on a
  write, checkable when it is made: if and only if it holds, every later GET in every
  legal continuation is right. The other direction builds the bad run, and for that
  proves that a returned backend can always be brought back (`CanReturn`).
- **Both happen** (`Feasibility`): a system that satisfies the hypotheses; and for
  every such system and every key a legal run through a crash, a missed write, a
  restart and a complete recovery, a legal run to a DELETE that comes back, and a
  legal run to a PUT that recovery overtakes; and (`Silence`) what happens when the
  peers that recovery asks accept connections but do not answer.
- **Writes one replica at a time** (`Overlaps`): without any fault the homes of a key
  agree after any mix of writes by any number of sessions if no two writes of the key
  overlap; and two that overlap leave them in agreement, however their parts mix,
  exactly when their order does not matter.
- **What recovery and a health pass leave behind** (`Outcomes`, `HealthCheckers`): the
  loops leave the statuses that the pings decide, and at a backend that came back the
  first value that its keys' other replicas give, as a function of who answers what.
- **Without any fault assumption** (`HealthPasses`): at most one backend is
  RECOVERING at any time, none between recoveries, the replica lookups always follow
  the ring, and a request terminates the load balancer exactly when no backend is in
  service.
- **The ring and the router** (`HashRings`, `Routers`): the wrapping search finds the
  first distinct owners clockwise, minimal disruption, and the ring after any history
  of calls is the one built afresh from the backends in service.
- **HTTP framing** (`HttpHelpers`, `HttpLaws`, `Injections`, `Framings`, `Responses`,
  `Routes`): incremental parsing, printing and parsing back, header injection,
  independence of how bytes are split, each with its exact condition
  (section 6.3 and section 9.3.2 of RFC 9112); what every branch reads, stated on
  printed text and in numbers, and which requests reach which handler
  (`ResponseLaws`, `HttpLaws`, `Routes`).
- **The session object** (`Sessions`, `ProxySessions`, `EndToEnd`): the imperative
  loops of `forwardTraffic` refine the step system, so the GET guarantee holds for
  bytes received on a connection, and what is written over one is read back
  (`PutThenGet`); and (`Replies`) the bytes of the replies are read
  back as the replies exactly when none follows a 503 of the proxy's own.
- **The cache** (`KvCaches`, `KvServers`): invisible at every capacity, ordered by
  last use, filled and cleared by exactly the requests that should, and larger caches
  hold what smaller ones hold.
- **Two parts of the HTTP library** (`ChunkedCoding`, `ChunkedLaws`, `MultipartBodies`):
  the chunked transfer coding round trip and the decoding of any body with extensions,
  trailers and limits (section 7.1 of RFC 9112), and the multipart delimiter
  scan over a buffer compacted in place (section 5.1.1 of RFC 2046).

## Assumptions of the GET guarantee

They are hypotheses of the theorems, in `GoodSetup`, `Possible` and `Assumed`.

- At least two backends, distinct ports, at least one virtual node each, no ring
  point shared by two backends. The hash is an arbitrary function of its input.
- One client request is one step, as README.md:107-108 has one write path; a fetch, a
  sync, a ping and the reaction to it are steps of their own. Session threads are not
  synchronised (load_balancer/src/LoadBalancer.cpp:104-109); for writes without faults
  `ApartAgree` and `PartsAreClientStep` show that it is enough that writes of one key do
  not overlap, and `OverlapExactly` that it is needed.
- One backend at fault at a time, from the cause to the promotion. The causes are a
  crash; a session or a ping that finds the backend dead although it accepts
  connections; and a GET that it accepts and does not answer.
- A backend that accepts a write applies it, and answers it or not; what a backend
  answers is what its handler says.
- A backend that came back stays alive from the ping that finds it to its promotion, and
  until then every backend that accepts connections answers recovery (`Answering`;
  `SilentPeers` shows why).
- Keys that are written are words other than `create` and `allkeys`.
- A write is allowed (`WriteAllowed`): if it leaves its key missing or empty, each home
  backend that it cannot reach already agrees; and if recovery has fetched the value
  of its key and not yet synced it, it leaves that value. This is less than forbidding
  DELETE while a backend is away, and less than making fetch and sync one step.

## Where the sources' documentation and code differ

- README.md:75 and README.md:98 say that the sync route never overwrites a newer value;
  `handle_sync` is an unconditional upsert. The model follows the code; a newer value is
  overwritten in the runs of `PutUndone`.
- README.md:203 says no key is lost during recovery; deletes are not carried over, see
  `DeletedComesBack`.
- The 503 that the proxy itself sends announces 21 bytes and has 23
  (load_balancer/src/ProxySession.cpp:125, :184 and :217). After an unanswered write the
  session goes on, and the client reads no reply after it, see `RepliesReadBack`.
- README.md:204 says that 503 is returned when all replicas of a key are down. When no
  backend at all is in service the ring is empty, the lookup throws, nothing catches the
  exception, and the whole load balancer is terminated, whether a session's thread or the
  health checker's made the call (load_balancer/src/LoadBalancer.cpp:104-109). This happens
  exactly then, see `TerminatedExactly`.
- The failure branch of `run` also tests a snapshot for RECOVERING; `PingOutcome` proves
  that the test never decides anything.

## Layout

| file | models |
|---|---|
| Text.dfy | string search, numerals and lines of the C++ library |
| HashRing.dfy, Router.dfy | the ring and the router, as values and as classes |
| KvCache.dfy, KvServer.dfy | the LRU cache and the server's handlers |
| Cluster.dfy | request forwarding, recovery, and the step system |
| ClusterSafety.dfy, Guarantees.dfy | the invariant and the main theorems |
| LostWrites.dfy, Returning.dfy | the exact condition on writes, and why it is exact |
| Feasible.dfy, Silence.dfy | systems and runs that exist |
| Overlap.dfy | writes as session threads do them, one replica at a time |
| HealthPasses.dfy, Outcome.dfy, Recovery.dfy | health passes under interference; what recovery and a pass leave; their loops |
| HttpHelper.dfy, HttpLaws.dfy, Injection.dfy, Routes.dfy, Response.dfy, ResponseLaws.dfy | HTTP parsing |
| Framing.dfy, Session.dfy, ProxySession.dfy, EndToEnd.dfy, Replies.dfy | sessions |
| Chunked.dfy, ChunkedLaws.dfy, Multipart.dfy | the two parts of the HTTP library |

`dafny verify dfyconfig.toml` verifies all files together.

## Model

| member | source | states |
|---|---|---|
| Guarantees.GetReturnsLastWrite | load_balancer/src/ProxySession.cpp:109-220 | in every legal run of any length, a GET of a proper key is answered with what the clients' writes left under it, across crashes, failovers, degraded writes and recoveries, although the backend at fault may accept the GET and not answer it |
| Guarantees.LastPut | kvserver.cpp:145-190 | if the last request that may write a key was a PUT, the expected answer is 200 with its value |
| Guarantees.LastCreate | kvserver.cpp:19-53 | if the last request that may write a key was a create, the expected answer is 200 with the value after the blank of its body if the key was absent, and the earlier answer otherwise |
| Guarantees.LastDelete | kvserver.cpp:55-86 | if the last request that may write a key was a DELETE, the expected answer is 404 |
| Guarantees.RunInv | load_balancer/src/HealthChecker.cpp:33-72 | the system invariant (router and ring consistent, one fault, homes of every key in step) holds after every legal run |
| Guarantees.PromotedAgrees | load_balancer/src/HealthChecker.cpp:48-58 | when a backend is about to be promoted it holds, for every key it is a home of, what the other home and the clients' view hold, with writes interleaved between the copies |
| Guarantees.WritesAcknowledged | load_balancer/src/ProxySession.cpp:143-187 | after every legal run a write has candidates; it is answered if and only if one of them answers, and refused with 503 otherwise; a success that is due (a PUT 200, a DELETE of a present key 200, a create of an absent key 201) is relayed if and only if a candidate gives it, and a healthy home that answers does |
| Guarantees.PrimaryOf | load_balancer/src/ProxySession.cpp:150-163 | of the responses to a write the last with status 200 or 201 is relayed, and without one the first |
| Feasibility.DoneYetRefused | load_balancer/src/ProxySession.cpp:147-187 | from every start, without any fault, every write may be done at all its replicas and answered by none: a legal run in which it is refused with 503 and both homes hold its effect |
| ClusterSafety.NextKeepsInv | load_balancer/src/RecoveryManager.cpp:84-173 | each step of clients, environment and health thread keeps the invariant, also with given pairs of backend and key given up on |
| ClusterSafety.GetAnswer | load_balancer/src/ProxySession.cpp:186-220 | under the invariant the first candidate that answers is an UP home, and it answers with the current value |
| ClusterSafety.TopTwo | load_balancer/src/HashRing.cpp:48-88 | with one home out of service, the surviving home still precedes any newcomer, so a stale newcomer is never first |
| ClusterSafety.WriteLoopEffect | load_balancer/src/ProxySession.cpp:143-171 | the write loop lets every candidate that accepts act on the request exactly once, answered completely or not, and marks exactly the others DOWN |
| ClusterSafety.ReadLoopAnswer | load_balancer/src/ProxySession.cpp:186-214 | the answer is that of the first candidate that accepts and answers completely; the ones before it, refused or incomplete, are DOWN and no other backend changes |
| LostWrites.AllowedExactly | load_balancer/src/RecoveryManager.cpp:148-168 | a write keeps the invariant if and only if it is allowed |
| LostWrites.LostForGood | load_balancer/src/RecoveryManager.cpp:127-169 | a write that does not land at a home is lost there: after every legal continuation without a write of its key, through any further faults and recoveries, every GET of the key that this backend answers is answered wrongly; the first home answers whenever it is UP, alive and not silent |
| LostWrites.OvertakenSync | load_balancer/src/RecoveryManager.cpp:148-168 | when a write of another value came between the fetch and the sync of its key, the sync leaves the target out of step, with the copy of that key over |
| Returning.CanReturn | load_balancer/src/HealthChecker.cpp:36-69 | from any state of the invariant where a backend is alive but DOWN, some finite run of health steps brings it back UP |
| Returning.LossSurfaces | load_balancer/src/RecoveryManager.cpp:84-173 | after a write that is not allowed some legal continuation of health steps, crashes and restarts only ends in a state in which a GET of its key is answered, and answered wrongly |
| Returning.AllowedIsExact | load_balancer/src/RecoveryManager.cpp:84-173 | a write is allowed if and only if every GET of a proper key in every legal continuation is answered correctly |
| Feasibility.FailoverRun | load_balancer/src/HealthChecker.cpp:40-68 | from every start and for every key, a legal run: a value is put, the first home crashes, misses the next value, restarts while DOWN with the old one, and health steps with a promotion among them bring it back UP with the new one, all other backends sound |
| Feasibility.LossReachable | load_balancer/src/ProxySession.cpp:143-171 | from every start and for every key, after a PUT and the crash of the key's first home, which is a legal run, a DELETE of the key does not land there |
| Feasibility.DeletedComesBack | load_balancer/src/RecoveryManager.cpp:127-169 | from every start and for every key: after a PUT, the crash of the key's first home and a DELETE, some legal continuation of health steps, crashes and restarts only ends in a state in which a GET of the key is answered wrongly |
| Feasibility.RaceReachable | load_balancer/src/RecoveryManager.cpp:148-168 | from every start and for every key, a legal run to a point where the key's value is fetched and not yet synced, and where a PUT of any other value is overtaken |
| Feasibility.PutUndone | kvserver.cpp:221-256 | from every start and for every key: after a legal run to a point where the key's value is fetched and not yet synced, and a PUT of any other value, some legal continuation of health steps, crashes and restarts only ends in a state in which a GET of the key is answered wrongly |
| Silence.SilentPeers | load_balancer/src/RecoveryManager.cpp:10-54 | from every start and for every key, a legal run to the listing of the peers by recovery; if then none of them answers, although all accept connections, the backend is promoted out of step and a GET of the key is answered wrongly |
| Overlaps.ApartAgree | load_balancer/src/ProxySession.cpp:143-171 | with writes as one step per replica, mixed in any way by any number of sessions, and no fault: if writes of one key do not overlap, both homes of every key without a write under way hold what the writes left in the order in which they began |
| Overlaps.OverlapExactly | load_balancer/src/LoadBalancer.cpp:104-109 | two writes of one key leave its homes in agreement under every mix of their parts if and only if their order does not matter for the key's entry |
| Overlaps.PartsAreClientStep | load_balancer/src/ProxySession.cpp:143-171 | the parts of one write, when nothing comes between them, are the client step of the running system |
| Feasibility.SomeSystem | load_balancer/src/Router.cpp:6-18 | the hypotheses on configuration and start can be met |
| HealthPasses.AtMostOneRecovering | load_balancer/src/HealthChecker.cpp:36-70 | under every interleaving, with no fault assumption, at most one backend is RECOVERING, and none outside a recovery |
| HealthPasses.PingOutcome | load_balancer/src/HealthChecker.cpp:40-68 | under every interleaving with what happens between a ping and the reaction, a failed ping takes a backend DOWN exactly when the snapshot has it UP; a good one starts recovery exactly when it has it DOWN |
| HealthPasses.TerminatedExactly | load_balancer/src/LoadBalancer.cpp:104-109 | after any run a client request terminates the load balancer if and only if no backend is in service, whatever its key |
| HealthPasses.TargetsAlways | load_balancer/src/Router.cpp:27-79 | under every interleaving write targets are the ring's replicas, read targets the UP ones among them in order, and the ring is the one built afresh from the backends in service |
| HealthCheckers.HealthChecker.RunOnce | load_balancer/src/HealthChecker.cpp:36-70 | one pass of the loop, undisturbed, given who answers its pings and recovery's requests: afterwards a backend that answered its ping is UP if it was DOWN and as it was otherwise, one that did not answer is DOWN, the tables are those specified, and the pass is a run of the step system; with virtual nodes no lookup throws |
| HealthCheckers.RecoveryManager.Recover | load_balancer/src/RecoveryManager.cpp:84-173 | recovery, undisturbed, leaves the tables specified by `RestoredHolds` and `NotCopied`, given who answers, and is a run of the step system from the mark to the point of promotion; it throws only on an empty ring |
| Outcomes.RestoredHolds | load_balancer/src/RecoveryManager.cpp:127-168 | after recovery the target holds, for every key of which it is a replica and which another UP backend lists, the first non-empty value among the other replicas that answer the request for the key; where none of them has one, what it had; and no other table changes |
| Outcomes.NotCopied | load_balancer/src/RecoveryManager.cpp:91-119 | a key that no other UP backend has and lists keeps its entry at the target, and so does one whose sync the target does not answer |
| Outcomes.PassStatuses | load_balancer/src/HealthChecker.cpp:41-69 | after a pass over any snapshot of current records, every backend of it has the status that its own ping decides, and the others their old one |
| Outcomes.PassRestores | load_balancer/src/HealthChecker.cpp:45-59 | the table at the end of a pass of a backend that was DOWN and answered is the one that its own recovery left |
| HealthCheckers.RecoveryManager.FetchAllKeysFromNode | load_balancer/src/RecoveryManager.cpp:10-54 | the keys collected are those of the lines of the peer's answer, and none when it is away or does not answer |
| HealthCheckers.RecoveryManager.FindSource | load_balancer/src/RecoveryManager.cpp:148-159 | the loop finds the first non-empty value that one of the other replicas answers with |
| HealthCheckers.RecoveryManager.FetchOneKey | load_balancer/src/RecoveryManager.cpp:127-159 | throws exactly on an empty ring; otherwise gives the value to copy, "" when the target is no replica or no other replica has one |
| HealthCheckers.RecoveryManager.CopyOneKey | load_balancer/src/RecoveryManager.cpp:127-168 | one round of the copy loop writes the value found, if any, at the target when it answers the sync, changes nothing else, and is the fetch step of the system and, if a value was found, its sync step; it throws exactly on an empty ring |
| Recoveries.LinesOfRows | load_balancer/src/RecoveryManager.cpp:36-47 | every proper key of a peer's table is found in its answer, and only keys of the table are if all are proper |
| HashRings.ReplicasAreNearest | load_balancer/src/HashRing.cpp:48-88 | a lookup gives min(r, number of backends on the ring) distinct backends, each at its nearest point clockwise, and all others lie farther |
| HashRings.HashRing.GetNodes | load_balancer/src/HashRing.cpp:48-88 | the method with the two spellings of ids returns the replicas so characterised |
| HashRings.HashRing.Search | load_balancer/src/HashRing.cpp:70-86 | the wrapping loop terminates within one lap and collects the first distinct owners in walk order |
| HashRings.UniqueCount | load_balancer/src/HashRing.cpp:62-70 | the count of distinct ids in one spelling equals the number of owners found by the other |
| HashRings.IdsInjective | load_balancer/src/HashRing.cpp:67-78 | both spellings of a backend's id are injective |
| HashRings.LabelsInjective | load_balancer/src/HashRing.cpp:24-27 | the label hashed for a virtual node identifies backend and index |
| HashRings.OnePointPerVnode | load_balancer/src/HashRing.cpp:24-31 | with any hash that tells the labels of a backend apart, the backend has exactly as many ring points as virtual nodes |
| HashRings.NoSharedPoint | load_balancer/src/HashRing.cpp:24-31 | with any hash that tells the labels of two backends apart, they share no ring point |
| HashRings.ReplicasPrefix | load_balancer/src/HashRing.cpp:48-88 | the replicas for a smaller factor are a prefix of those for a larger one |
| HashRings.MinimalDisruption | load_balancer/src/HashRing.cpp:34-88 | the r replicas after a removal are the r + 1 before it with the backend deleted, cut to r |
| HashRings.AddThenRemove | load_balancer/src/HashRing.cpp:20-46 | adding and removing a backend restores the ring if and only if none of its points was taken |
| HashRings.HashRing.AddNode | load_balancer/src/HashRing.cpp:20-32 | the points written are, for each index below the number of virtual nodes, the hash of ip, port and index as the source spells them, cut to 32 bits; each is set to the backend and no other point changes |
| HashRings.HashRing.RemoveNode | load_balancer/src/HashRing.cpp:34-46 | exactly the virtual nodes' points are erased |
| Routers.HistoryConsistent | load_balancer/src/Router.cpp:6-112 | after any sequence of calls each ring entry is the router's own record of a backend in service, which owns all its points |
| Routers.RingIsFresh | load_balancer/src/Router.cpp:81-112 | after any sequence of calls the ring is the one freshly built from the backends not DOWN, in any order |
| Routers.LiveOrder | load_balancer/src/Router.cpp:27-79 | whatever the history, the owners of a key are those of the first ring in the same order, without the ones DOWN |
| Routers.TargetsFollowRing | load_balancer/src/Router.cpp:27-70 | write targets are exactly the replicas and read targets the UP ones among them |
| Routers.OneCall | load_balancer/src/Router.cpp:21-112 | a call about one backend gives its record the new status, or removes it, and the ring then has all its points if it is in service and none otherwise; other records and ring entries are as before |
| Routers.Router.RemoveBackend | load_balancer/src/Router.cpp:21-25 | the record and the given backend's points go together |
| Routers.Router.MarkBackendDown | load_balancer/src/Router.cpp:103-112 | the status and the ring change together, for known ports only |
| Routers.Router.MarkBackendUp | load_balancer/src/Router.cpp:92-101 | the status and the ring change together, for known ports only |
| Routers.Router.MarkBackendRecovering | load_balancer/src/Router.cpp:81-90 | the status and the ring change together, for known ports only |
| Routers.Router.GetReadBackendsForKey | load_balancer/src/Router.cpp:27-47 | the loop gives the router's records of the replicas that are UP; nothing on an empty ring, where the source throws |
| Routers.Router.GetWriteBackendsForKey | load_balancer/src/Router.cpp:49-70 | the loop gives the router's records of the replicas that are UP or RECOVERING |
| Routers.Router.GetOnlineBackends | load_balancer/src/Router.cpp:114-125 | each UP record once, in some order |
| KvCaches.ListByLastUse | kvcache.h:19-89 | after any calls the list fits the capacity and is strictly ordered by last use |
| KvCaches.EvictsLeastRecent | kvcache.h:46-54 | a full cache that takes a new key drops exactly the least recently used one |
| KvCaches.ValueAsSet | kvcache.h:19-89 | after any calls a cached key has the value of the call that inserted or updated it last, and a deleted key is not cached until it is inserted again |
| KvCaches.LRUCache.ReadKey | kvcache.h:19-29 | returns the cached value or "", and moves the pair to the front, index and list kept together |
| KvCaches.LRUCache.CreateKey | kvcache.h:32-57 | inserts at the front when absent, evicting at capacity; otherwise refuses |
| KvCaches.LRUCache.UpdateKey | kvcache.h:59-74 | replaces the value and moves the pair to the front when present |
| KvCaches.LRUCache.DeleteKey | kvcache.h:77-89 | removes the pair and its index entry when present |
| KvServers.CacheInvisible | kvserver.cpp:19-256 | with a cache of any capacity a server answers every request sequence as one without, leaves the same table, and caches only current pairs |
| KvServers.Inclusion | kvserver.cpp:88-190 | on one request sequence a smaller cache's list is always a prefix of a larger one's |
| KvServers.MoreCapacityMoreHits | kvcache.h:32-57 | more capacity never answers fewer reads from the cache |
| KvServers.CacheFilled | kvserver.cpp:28-143 | a read of a present key, and a create of an absent one, leave the pair at the front of the cache and every other pair in it, except the last one of a full cache that did not have the key |
| KvServers.CacheCleared | kvserver.cpp:55-256 | an update, a sync and a delete leave nothing of their key in the cache and every other pair; refused, they change nothing |
| KvServers.CreateBodyRead | kvserver.cpp:22-26 | the body of a create is the key up to the first blank and the value after it up to a line end; without a blank there is no value |
| KvServers.Refusals | kvserver.cpp:43-47 | a create of a present key is answered 409, a read, a DELETE or an unreplicated PUT of an absent one 404, each with its text and without effect; a sync is answered 201 |
| KvServers.KvServer.HandleCreate | kvserver.cpp:19-53 | inserts the key and value that `CreateBodyRead` finds in the body if the key is absent, with the cache filled; 409 otherwise |
| KvServers.KvServer.HandleRead | kvserver.cpp:88-143 | cache, then table, then 404, with the cache filled on a miss |
| KvServers.KvServer.HandleUpdate | kvserver.cpp:145-190 | 404 for a missing key unless replicated, otherwise an upsert that invalidates the cache |
| KvServers.KvServer.HandleDelete | kvserver.cpp:55-86 | removal from table and cache, 404 when missing |
| KvServers.KvServer.HandleSync | kvserver.cpp:221-256 | an unconditional upsert that invalidates the cache |
| KvServers.KvServer.HandleAllKeys | kvserver.cpp:192-219 | each key once, one per line, in some order |
| HttpHelpers.GetContentLength | load_balancer/src/HttpHelper.cpp:7-36 | the index loop reads the number after the first matching header name; which header and which number that is `FirstLineDecides`, `NumeralRead` and `NoNumeral` say |
| HttpLaws.FirstLineDecides | load_balancer/src/HttpHelper.cpp:7-36 | in a header section of any lines, the first line that has the canonical spelling announces the length, and only without one the first in lower case |
| HttpLaws.NumeralRead | load_balancer/src/HttpHelper.cpp:24-35 | after any blanks and tabs a decimal numeral, with or without a minus sign, is read as its number if that is in the range of 64 bits with a sign, and as 0 otherwise |
| HttpLaws.NoNumeral | load_balancer/src/HttpHelper.cpp:24-35 | anything else after the name is read as 0, a plus sign included |
| HttpLaws.LowerCaseDecides | load_balancer/src/HttpHelper.cpp:11-19 | where the canonical spelling does not occur, the first line in lower case with a number below 2^63 announces the length |
| HttpLaws.ParseStable | load_balancer/src/HttpHelper.cpp:64-113 | COMPLETE and ERROR are unchanged by bytes that follow |
| HttpLaws.ParseMinimal | load_balancer/src/HttpHelper.cpp:64-113 | every strict prefix of a consumed request is INCOMPLETE, and what it consumes decides the result |
| HttpLaws.ErrorMinimal | load_balancer/src/HttpHelper.cpp:64-113 | an error is reported as soon as the header section has ended and not before |
| HttpLaws.RequiredLengthFits | load_balancer/src/HttpHelper.cpp:102 | for a buffer that a string can hold the required-length sum is below 2^64 |
| HttpLaws.PrintParse | load_balancer/src/HttpHelper.cpp:64-113 | a printed request parses back whole if and only if it has a header line and the first line that names a length announces that of its body |
| HttpLaws.PrintedOtherwise | load_balancer/src/HttpHelper.cpp:64-113 | what becomes of every printed request, by the length it announces: an error with the source's text exactly without a header line or with a negative length, incomplete exactly with too few bytes, and otherwise that many bytes of body |
| HttpLaws.FewBlanks | load_balancer/src/HttpHelper.cpp:82-97 | a first line with fewer than two blanks is refused, whatever follows |
| HttpLaws.NegativeRefused | load_balancer/src/HttpHelper.cpp:98-101 | a request whose first length header has a minus sign and a numeral that is not zero is an error |
| HttpLaws.PrintParseWithLength | load_balancer/src/HttpHelper.cpp:7-113 | a request with a body of less than 2^63 bytes, printed with its Content-Length before any other header line of that name, parses back if and only if its request line does not have the name, or has it with the right number |
| HttpLaws.NameInPath | load_balancer/src/HttpHelper.cpp:11-19 | a request whose path ends in the header's name and a number parses back, whatever its headers say, if and only if the number is the length of its body |
| Injections.InjectionKeepsMeaning | load_balancer/src/ProxySession.cpp:133-141 | with the replication header inserted, a request taken from the buffer parses with the same method, path, version and body and 30 more bytes consumed |
| Injections.InsertionKeepsMeaning | load_balancer/src/ProxySession.cpp:139 | the same for any header line that does not contain the length header's name |
| Sessions.MarkedExactly | kvserver.cpp:152 | a printed request counts as replicated exactly when one of its header lines is `X-Internal-Replication: true` |
| Routes.Routing | kvserver.cpp:275-286 | which verb, path and body reach which handler, with which key and value, each in both directions; key characters are given by their codes |
| Routes.ClientRequests | kvserver.cpp:275-279 | an HTTP request is a PUT, DELETE or GET of a key, or a create, exactly when it has that verb and path; the whole body is the value |
| Routes.KeyOfPath | load_balancer/include/HttpParser.h:26-43 | the routing key of any path is what follows its last slash, or the whole path if nothing does, and the first word of the body for a create with one |
| Routes.RoutedByItsKey | load_balancer/include/HttpParser.h:26-43 | the routing key is the key of the handler reached, except exactly for a create without a body and for the key create with a body starting with another word |
| Routes.AsInStepSystem | load_balancer/src/ProxySession.cpp:106-131 | a client request on a proper key, as `ClientRequests` identifies it, takes the path, the key and the handler that the step system gives it |
| Framings.SplittingIsInvisible | load_balancer/src/ProxySession.cpp:83-105 | for any handler and any cut of the stream, the nested loops handle the same requests to the same effect, end for the same reason, and leave the same bytes as one parse of the whole |
| Framings.BytesConserved | load_balancer/src/ProxySession.cpp:221 | the requests handled and the rest are the bytes received, in order |
| Framings.WaitsForMore | load_balancer/src/ProxySession.cpp:95-103 | the session waits only when no complete request is left in its buffer |
| Responses.ParseHTTPResponse | load_balancer/src/HttpHelper.cpp:115-195 | the status line and the loop over header lines give the status, length, flag and header map of the specification, the total wrapping in 64 bits |
| Responses.ReadBackendResponse | load_balancer/src/ProxySession.cpp:41-75 | the receive loop returns the first complete parse, or fails when the backend closes first |
| Responses.SplitFreeExactly | load_balancer/src/ProxySession.cpp:41-75 | a response is read the same way however it is split if and only if its length is announced without overflow or nothing follows its header section |
| Responses.PrintedResponseRead | load_balancer/src/HttpHelper.cpp:141-195 | a response printed with its length and no other such header is relayed byte for byte however it is split |
| ResponseLaws.PrintedHeadersRead | load_balancer/src/HttpHelper.cpp:141-195 | a response whose last Content-Length header, in whatever letter case, is the length of its body is read whole however it is split, with its status line and its header lines as the header map |
| ResponseLaws.HeaderMap | load_balancer/src/HttpHelper.cpp:150-186 | the header map has exactly the names of the lines, as spelled, each with the value of the last line that has it |
| ResponseLaws.HeaderRead | load_balancer/src/HttpHelper.cpp:157-184 | one line enters its value, blanks and tabs before it removed; it sets the length if its name is Content-Length in any letter case, to 0 if the value is no number, and leaves it otherwise |
| ResponseLaws.StoulRead | load_balancer/src/HttpHelper.cpp:168-180 | the number after white space and an optional sign, refused from 2^64 on; a minus sign negates it in 64 bits |
| ResponseLaws.StatusRead | load_balancer/src/HttpHelper.cpp:128-141 | version, code and text of a status line with any white space before the first two; a code beyond 32 bits is cut to the nearest that fits and the text is lost |
| Replies.AnswerCode | load_balancer/src/ProxySession.cpp:156 | on the status line that a backend prints the proxy reads the status printed, which the choice of the relayed response goes by |
| Sessions.BytesAreClientStep | load_balancer/src/ProxySession.cpp:106-220 | serving the bytes of a client request is one client step of the running system, whatever other routes answer and wherever a response does not come |
| Sessions.ReadsKeepTables | load_balancer/src/ProxySession.cpp:186-214 | no request on the read path changes a table |
| ProxySessions.ProxySession.ConnectToBackend | load_balancer/src/ProxySession.cpp:16-39 | an open socket is used again whatever backend was named; otherwise it leads to the named one |
| ProxySessions.ProxySession.Exchange | load_balancer/src/ProxySession.cpp:145-148 | a send has an effect at the named backend only, and a complete response or none comes back; its precondition, that the socket leads there, is proved at every call |
| ProxySessions.ProxySession.ReplicateWrite | load_balancer/src/ProxySession.cpp:143-171 | the loop over sockets has the effect and the primary response of the step system's write path, incomplete responses included |
| ProxySessions.ProxySession.ReadAny | load_balancer/src/ProxySession.cpp:186-213 | the loop over sockets fails over and marks DOWN as the step system's read path does, after a refused connection and after an incomplete response, and changes no table |
| ProxySessions.ProxySession.HandleRequest | load_balancer/src/ProxySession.cpp:106-220 | one request has exactly the specified effect, replies once and ends the session exactly when specified; a lookup that throws is recorded as the end of the load balancer |
| ProxySessions.ProxySession.ForwardTraffic | load_balancer/src/ProxySession.cpp:77-224 | the nested loops over receives refine the framing specification and leave the backend socket closed |
| EndToEnd.GetOverHttp | load_balancer/src/ProxySession.cpp:77-224 | at any point of a legal run, the bytes of a GET are answered with the last write of its key and the session goes on |
| EndToEnd.PutThenGet | load_balancer/src/ProxySession.cpp:77-224 | after a legal run, a PUT of any value and a GET of its key, printed with their lengths and sent over one connection in any pieces, get one reply each, the second 200 with the value, and nothing of their bytes is left |
| EndToEnd.SessionIsRun | load_balancer/src/ProxySession.cpp:77-224 | however its bytes are cut, a session of client requests takes the system through one client step per request of one parse of the stream |
| Replies.RepliesReadBack | load_balancer/src/ProxySession.cpp:173-187 | the bytes of the replies on a connection, read by their status lines and announced lengths, give back the replies if and only if no 503 of the proxy's own comes before another reply |
| Replies.StreamHeard | load_balancer/src/ProxySession.cpp:184 | what is read is always the replies up to and including the first such 503 |
| Replies.GoesOnAfterRefusal | load_balancer/src/ProxySession.cpp:123-219 | with a consistent router, a session goes on after a 503 of its own if and only if the request was a write that had candidates and none of them answered |
| ChunkedCoding.FromIToHex | httplib.h:2755-2763 | the loop prints the hexadecimal numeral |
| ChunkedCoding.SizeRead | httplib.h:4782-4787 | a printed size line is read back as the size |
| ChunkedCoding.LineReader.Append | httplib.h:3062-3073 | the line is the bytes appended, across the move from the fixed to the growable buffer |
| ChunkedCoding.LineReader.Getline | httplib.h:3022-3060 | reads through the first line end, within the length limit, or the unterminated last line |
| ChunkedCoding.LineReader.ReadContentChunked | httplib.h:4771-4893 | within the limits on lines and declared trailers and however reads are split: if the receiver refuses none of the pieces it is handed, the result, what is delivered and what is left are those of the decoder specification; it is handed nothing after a piece it refuses, and then the result is failure and what was delivered a prefix of that of the specification |
| ChunkedCoding.WriteContentChunked | httplib.h:5161-5256 | the writer sends a chunk per non-empty write of each provider call and the end mark, and stops without it after a call whose last write was empty |
| ChunkedCoding.ChunkedRoundTrip | httplib.h:4771-4893 | within the payload limit, what is written is read back and its end found exactly, if and only if no provider call but the last ended with an empty write |
| ChunkedLaws.AnyBodyDecoded | httplib.h:4771-4893 | any body within the payload limit, with its sizes in either letter case and with leading zeros, chunk extensions and trailer lines, delivers its data, and succeeds exactly when no trailer line exceeds 8192 bytes and fewer than 100 fields are declared before the last; then exactly its bytes are taken |
| ChunkedLaws.SizeRefused | httplib.h:4788-4812 | the first size that goes beyond the payload limit ends the decoding at its line as too large, with the data of the chunks before it delivered; a size of 2^64 - 1 or more as a failure |
| ChunkedLaws.BrokenChunk | httplib.h:4813-4835 | a chunk that is cut short, or whose data is not followed by a line end, is a failure; what has arrived of its data is delivered |
| ChunkedLaws.NoSize | httplib.h:4782-4787 | a line that does not begin with a number is a failure |
| ChunkedLaws.NumberRead | httplib.h:4782-4787 | the size is the hexadecimal number after white space, a sign and `0x`, by character codes, capped at 64 bits |
| MultipartBodies.BodyParser.BufFind | httplib.h:5756-5777 | the two loops find the first occurrence in the unread bytes, or report the size |
| MultipartBodies.BodyParser.BufAppend | httplib.h:5779-5795 | after the compaction in place the unread bytes are the old ones followed by the new |
| MultipartBodies.BodyParser.ParseAll | httplib.h:5661-5683 | however a body is cut into calls, the bytes before the first delimiter are delivered, and without one all but the last bytes that may belong to it |
| MultipartBodies.Window | httplib.h:5671-5681 | keeping as many bytes as the delimiter has loses no delimiter that later bytes complete |

## Left out

- Sockets, partial sends, timeouts and sleeps: a connection is accepted or not, and a receive delivers any bytes.
- PostgreSQL: a finite map; database errors (status 500), character encoding and NUL bytes are not modelled.
- Mutexes and memory races: each router, cache and handler call is one atomic step.
- The value of `std::hash`: any function of the string, cut to 32 bits.
- The audit log, console output, and the client, load generator and start-up programs.
- The response bytes inside a session: a session passes a backend's status and body as a value; how the proxy reads responses is modelled in Response.dfy, and what a client reads of the replies in Replies.dfy.
- What a process does while it is being terminated: after the exception on an empty ring no more requests and health steps are taken, and nothing else is said.
- A backend that accepts a write and then does not apply it, and one that answers something else than its handler says: excluded by `Assumed` and `ActOk`; the write path would not notice either.
- HTTP parsing inside a backend: it reads the proxy's bytes by the grammar of the proxy's own parser, request targets with escapes or queries are not routed, and the replication header counts in the proxy's own spelling only.
- Threads of many sessions at once, with faults: there requests interleave as whole steps; writes as one step per replica are modelled without faults, in Overlap.dfy.
- The list of the cache is a sequence of references to nodes, not linked cells; the index holds the same references.
- The remaining parts of httplib.h: header callbacks and other states of the multipart parser, the contents of trailer fields, compression, and errors while writing chunks.
- README claims that the code does not keep: sync never overwriting newer values, deletes surviving recovery, and re-replication to a key's successors while a backend is down.
