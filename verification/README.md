# Verified model of the container platform's state machines

This project models the stateful core of a Go service that runs containers for its users, and
proves what that core keeps over whole runs. HTTP, WebSocket and mail plumbing is not modelled;
Docker, PostgreSQL and the file system appear as finite maps and sets, and every SQL statement,
Docker call and folder operation is one step that may fail.

Two conventions run through all files.

* A *run* is any sequence of labelled steps. `Do` performs one step and changes nothing when the
  step is not enabled, `Exec` performs a sequence from its first step to its last. A theorem about
  `Exec` is therefore a theorem about every interleaving and every pattern of failures.
* Code that changes state in Go is a class or a method with loops here. Its `ensures` ties the new
  state to the step of the machine (or to the function) that the theorems are about.

## The parts

| files | subject |
|---|---|
| `Common.dfy` | options, sequences without repeats, numbered names |
| `CheckThenAct.dfy` | a counter guarded by a check that is not atomic with the act: the overshoot bound, and that it is reached. Used by crash recovery, container quotas and e-mail tokens |
| `Recovery.dfy`, `RecoveryRuns.dfy`, `RecoverySerial.dfy` | crash handlers as program counters with a snapshot; all interleavings; serial traces and the circuit breaker in closed form |
| `GoStrings.dfy`, `TreeParser.dfy`, `TreeOrder.dfy`, `TreeShape.dfy`, `TreeList.dfy`, `TreeRoundTrip.dfy`, `TreeText.dfy`, `TreeNames.dfy` | the `find \| sort` text parsed into a tree of heap nodes, what tree any list gives, and the round trip |
| `Lifecycle.dfy`, `LifecycleOrphans.dfy`, `LifecycleQuota.dfy`, `LifecycleTight.dfy`, `LifecycleLocks.dfy`, `UserContainers.dfy`, `ContainerCalls.dfy`, `ContainerManager.dfy`, `AutoStop.dfy` | creation, start, stop, removal, row locks, quotas and the auto-stop sweep over table, Docker and disk |
| `TokenBucket.dfy`, `RateLimit.dfy`, `RateLimitRuns.dfy`, `RateLimitPauses.dfy`, `RateLimiter.dfy` | the per-address rate limiter and the eviction of idle addresses, also between finding a limiter and asking it |
| `Bus.dfy`, `NotificationBus.dfy` | lossy publish to bounded channels; subscriptions as Go slices that share backing arrays |
| `Networks.dfy`, `NetworkFaults.dfy`, `NetworkManager.dfy`, `NetworkList.dfy` | membership rows against Docker endpoints, calls that fail half-way or overlap, and the grouping of a LEFT JOIN |
| `Tokens.dfy`, `TokensTight.dfy` | e-mail tokens: invalidate then insert, and the atomic consume |

## Assumptions

* Transactions see committed rows only, a commit that reports failure has no effect, and an UPDATE
  locks its row until its transaction ends.
* Ids that Docker and the database hand out are new. Distinct generated tokens have distinct hashes.
* `golang.org/x/time/rate` is the token bucket its documentation describes, in exact arithmetic:
  a bucket starts full, refills at the rate up to the burst, and allows an event iff it holds a token.
* `sort` compares bytewise, and `find` prints one line a file or folder, parents included.
* Clocks do not go back.

## Where the code differs from its comments

* `utils/parser.go:44` says sorted parents always come before their children. That holds for the
  bytewise order (`TreeList.ParentsFirst`). For unsorted input, that all ancestors are listed
  somewhere before a path does not suffice (`TreeList.AncestorsListedIsNotEnough`): they must be
  listed in order, each after its own parent, and then the path is placed (`TreeList.TreeOfAnyList`).
* `repository/tokenRepo.go:44-49` means that only the latest link works, but ignores a failing
  invalidation; the bound on live links is stated for runs in which invalidations succeed, and
  `Tokens.TokenRepo.Create` says what is left when one fails.
* `service/hostContainerService.go:428,463` roll the row back when Docker fails, so that both agree;
  when the commit fails after Docker has acted, they do not (`ContainerCalls.ChangeDisagrees` says
  exactly when, `ContainerManagers.SweepDisagrees` does so for a whole sweep and
  `LifecycleLocks.RowFollowsDocker` for calls that overlap).
* `service/containerEventsService.go:70` takes a non-zero exit code for a crash, also after a stop
  that the user asked for; `RecoverySerial.StopThenDie` says exactly when such a stop lasts, and
  `RecoverySerial.StopThatDoesNotLast` gives one that does not.

## Model

| member | source | states |
|---|---|---|
| `CheckThenAct.Overshoot` | `service/recoveryService.go:65-100` | in any run of a check-then-act counter with at most k actors between check and act, units recorded plus actors admitted stay within limit - 1 + k |
| `CheckThenAct.OvershootIsTight` | `service/recoveryService.go:65-100` | for every limit and k there is a run with at most k such actors that reaches limit - 1 + k |
| `Recovery.HandleIsOutcome` | `service/recoveryService.go:41-122` | the steps of one crash handler, interleaved with nothing, come to what HandleCrash does read from top to bottom, for every pattern of failing statements |
| `Recovery.RecoveryService.HandleCrash` | `service/recoveryService.go:41-122` | row, notices, backoff and Docker restarts after a crash: closed circuit, exhausted count, failed increment, failed restart |
| `Recovery.RecoveryService.HandleOOM` | `service/recoveryService.go:125-128` | the machine's step: the row is marked, nothing else changes |
| `Recovery.RecoveryService.HandleHealthChange` | `service/recoveryService.go:131-152` | the machine's step: the status is stored, and only "unhealthy" of a container with a row is announced |
| `Recovery.RecoveryService.Reset` | `service/recoveryService.go:155-165` | succeeds iff the row is there, and then clears circuit, count and OOM flag together |
| `RecoveryRuns.RestartBound` | `service/recoveryService.go:47-100` | in every interleaving of handlers, resets, starts, stops and removal with at most k handlers between snapshot and increment, restart_count plus those handlers is at most maxRestarts - 1 + k |
| `RecoveryRuns.SerialRestartBound` | `service/recoveryService.go:65-100` | handlers one at a time never take the count over maxRestarts |
| `RecoveryRuns.RestartBoundIsTight` | `service/recoveryService.go:47-100` | for every plan and k a run reaches maxRestarts - 1 + k restarts |
| `RecoveryRuns.RestartsOverRun` | `service/recoveryService.go:95-113` | Docker is asked for at most maxRestarts - 1 + k restarts for each period between resets, and increments are never lost between count and restart call |
| `RecoverySerial.ClosedForm` | `service/recoveryService.go:60-113` | after any serial trace with m crashes since a reset: restart_count = min(m, maxRestarts) whether or not restarts work, the time slept, the calls made, and when the circuit is open |
| `RecoverySerial.OpensWhenExceeded` | `service/recoveryService.go:65-77` | without manual starts the circuit is open iff the non-zero die events outnumber maxRestarts |
| `RecoverySerial.StartThenCrash` | `service/hostContainerService.go:473-477` | a manual start on an exhausted container closes the circuit, and the next crash reopens it with no restart and no wait |
| `RecoverySerial.StopThenDie` | `service/containerEventsService.go:65-72` | after a stop by the user and the die event it causes, Docker is asked to restart the container iff the exit code is not 0 and no guard of HandleCrash stands in the way; the row says stopped at the end iff it is not asked or the restart is seen to fail |
| `RecoverySerial.StopThatDoesNotLast` | `service/containerEventsService.go:67-72` | a container that runs again after a stop with exit code 137 |
| `RecoverySerial.BackoffGrows` | `service/recoveryService.go:16-22` | the delay index is always in range, delays never decrease and never exceed 60 s |
| `RecoverySerial.TotalBackoffIs` | `service/recoveryService.go:79-91` | n restarts from zero wait 5(2^n - 1) s for n <= 4 and 135 + 60(n - 5) s after |
| `TreeParser.ParserTreeFolder` | `utils/parser.go:16-66` | on every input, the heap nodes built form exactly the tree of the functional parser, all of them newly allocated, and no node stands at two places |
| `TreeParser.ReadPaths` | `utils/parser.go:19-27` | the trimmed lines other than the empty ones and the root, in order |
| `TreeParser.IdentifyDirectories` | `utils/parser.go:33-42` | the quadratic pass marks exactly the paths that some path lies below |
| `TreeParser.BuildTree` | `utils/parser.go:44-63` | the node map and the children lists represent the forest grown from the items, item by item, without sharing |
| `TreeParser.HeapIsTree` | `utils/parser.go:45-65` | nodes whose fields match the slots of the forest represent its tree |
| `TreeParser.BuiltIsUnshared` | `utils/parser.go:61-62` | following places among the children, two ways from the root never lead to the same node: no sharing and no cycle, repeated paths included |
| `TreeList.TreeOfAnyList` | `utils/parser.go:33-63` | for any list of distinct clean paths in any order, a node stands at a position iff the path's ancestors and the path are listed in order; siblings are distinct, and nodes with children are directories |
| `TreeList.ParentsFirst` | `utils/parser.go:44` | in a bytewise sorted list every parent stands before its children |
| `TreeList.TreeOfSortedList` | `utils/parser.go:44-63` | for a sorted, parent-closed list nothing is dropped, children are in name order, and type is dir iff there are children |
| `TreeList.AncestorsListedIsNotEnough` | `utils/parser.go:56-60` | a list in which all ancestors precede a path that is dropped all the same |
| `TreeRoundTrip.PositionsDetermineTree` | `utils/parser.go:8-12` | two trees in normal form with the same positions are equal |
| `TreeText.RoundTrip` | `utils/parser.go:16-65` | parsing the sorted listing of a workspace, in whatever order it was walked, gives the normal form of that workspace |
| `TreeNames.ParseNamesAreSafe` | `utils/parser.go:19-26` | no input makes the parser show a name with a newline or trailing white space |
| `TreeNames.RoundTripExactly` | `utils/parser.go:16-65` | the round trip returns a workspace in normal form iff no name holds a newline or ends in white space |
| `GoStrings.DirBase` | `utils/parser.go:47-56` | Dir and Base take a clean absolute path apart into its parent and its last name |
| `GoStrings.CleanPathIsClean` | `utils/parser.go:56` | the clean paths these results speak of are ones that filepath.Clean leaves alone |
| `Lifecycle.StepKeepsOk` | `service/hostContainerService.go:89-539` | every step, failing or not, of every call keeps the invariant: rows name existing containers, uniquely; a container whose row is not committed is known to its own call alone; snapshots agree with the rows they came from |
| `Lifecycle.RowsNameContainers` | `service/hostContainerService.go:150-189` | in every interleaving with any failures, each committed row names a container that Docker has, and no other row does |
| `LifecycleOrphans.AgreeExactlyWithoutLeaks` | `service/hostContainerService.go:509-530` | once no call is under way, Docker's containers are exactly those the rows name iff no step of the run leaked: no removal that failed, no deletion of a user with containers, no late failure of CreateContainerWithPort |
| `LifecycleOrphans.OrphansStay` | `service/hostContainerService.go:524-530` | a container that no row names and no call holds stays one, whatever happens |
| `LifecycleOrphans.LeakMakesOrphan` | `service/hostContainerService.go:154-159` | every leaking step makes such a container |
| `LifecycleOrphans.WithoutLeaksTheyAgree` | `service/hostContainerService.go:509-530` | the direction of that equivalence for leak-free runs |
| `LifecycleOrphans.StepLeaksNothing` | `service/hostContainerService.go:118-159` | every other step, failures included, leaves each container named by a row or held by a call that will take it down |
| `LifecycleOrphans.FailingLateLeaksAnOrphan` | `service/hostContainerService.go:273-310` | whenever CreateContainerWithPort fails after its container was started, the container stays, unnamed by any row and unknown to any call |
| `LifecycleQuota.QuotaBound` | `service/hostContainerService.go:96-108` | with a fixed plan and at most k creations of a user past the check at a time, rows plus such creations never exceed MaxContainers - 1 + k, over both ways to create, removals and user deletion |
| `LifecycleQuota.SerialQuota` | `service/hostContainerService.go:202-214` | a user who creates one container at a time never has more than MaxContainers |
| `LifecycleTight.QuotaBoundIsTight` | `service/hostContainerService.go:96-108` | for every plan and every k, a run with at most k creations at a time reaches MaxContainers - 1 + k containers |
| `LifecycleTight.QuotaKeptExactly` | `service/hostContainerService.go:96-108` | the plan's limit is kept over all runs with at most k creations of a user at a time iff k <= 1 |
| `LifecycleLocks.RowFollowsDocker` | `service/hostContainerService.go:408-471` | in every interleaving of creations, starts, stops, removals and user deletions, with any failures: a row that no start or stop has locked says its container runs iff Docker runs it, unless the last start or stop in which Docker acted on it failed to commit a change of status, and then it is wrong |
| `LifecycleLocks.RowsAndDockerAgree` | `service/hostContainerService.go:420-438` | so rows that are not locked agree with Docker over all runs in which no commit fails after Docker acted on them |
| `LifecycleLocks.LockedOnce` | `service/repository.go:67-81` | no two calls ever hold the same row, and a row that is held is there |
| `UserContainers.GetContainersForUserByID` | `service/repository.go:201-292` | UserNotFound iff the answer is empty; otherwise the user of the first row and the containers of the rows that have one, in order |
| `UserContainers.ListIsTheRows` | `service/repository.go:205-279` | the list the plan check counts has each of the user's rows exactly once and nothing else, in whatever order they are joined |
| `ContainerManagers.ContainerManager.PassPlanCheck` | `service/hostContainerService.go:90-108` | passes iff the queries work, the user exists and has fewer rows than MaxContainers; it is the machine's check |
| `ContainerManagers.ContainerManager.RunDeferred` | `service/hostContainerService.go:94-159` | the deferred functions run last one first, and those that clean up only on an error |
| `ContainerManagers.ContainerManager.CreateContainer` | `service/hostContainerService.go:89-193` | the whole new state for every pattern of failing steps, which is also that of the machine's steps in a row; success iff every step works |
| `ContainerCalls.CreationRun` | `service/hostContainerService.go:89-315` | the machine's steps of either creation, undisturbed, come to one state given by how far the creation gets |
| `ContainerCalls.AllOrNothing` | `service/hostContainerService.go:89-193` | success adds exactly one row and one running container; a failure leaves the rows as before, and, when clean-up works, Docker as before iff it had no port or its container did not come to run, and the project folder as before iff it was new or not reached |
| `ContainerCalls.FolderAfterFailure` | `service/hostContainerService.go:114-122` | after a failed creation is cleaned up, the project folder is as before iff it was new, and outside it only missing parents were added |
| `ContainerManagers.ContainerManager.CreateContainerWithPort` | `service/hostContainerService.go:195-315` | the whole new state for every pattern of failing steps, which is also that of the machine's steps in a row: cleaned up until the container runs, left as it is after that |
| `ContainerManagers.ContainerManager.StartContainer` | `service/hostContainerService.go:441-471` | Docker starts the container iff every step up to it works, and the row says so iff the commit works too; unless another call has locked the row, which the machine waits for, the call is a run of the machine |
| `ContainerManagers.ContainerManager.StopContainer` | `service/hostContainerService.go:408-439` | the same for a stop |
| `ContainerCalls.ChangeDisagrees` | `service/hostContainerService.go:420-438` | after a start or stop, row and Docker disagree iff the commit failed after Docker had acted and the status was to change |
| `ContainerManagers.ContainerManager.RemoveContainer` | `service/hostContainerService.go:482-539` | the row goes iff the deletion commits; only then container and folder, each as far as its removal works; the call is a run of the machine |
| `ContainerCalls.RemovalRun` | `service/hostContainerService.go:482-539` | the machine's removal steps in a row come to what RemoveContainer leaves |
| `ContainerManagers.ContainerManager.CheckAndStopExpiredContainers` | `service/hostContainerService.go:683-709` | for every pattern of failing steps of each stop: Docker has halted exactly the expired containers whose stop got to it, the rows of exactly those that also committed say stopped, and nothing else changed |
| `ContainerManagers.SweepDisagrees` | `service/hostContainerService.go:693-697` | after a sweep, an expired container's row and Docker disagree iff its commit failed after Docker had acted |
| `AutoStop.SweepStopsTheAdvertised` | `service/hostContainerService.go:541-551` | a fault-free sweep changes a row iff its advertised AutoStopAt has passed, changes nothing but its status, and leaves no running row with a time that has passed |
| `AutoStop.NoneRunsTooLong` | `service/hostContainerService.go:662-697` | whatever is created, started, stopped or removed meanwhile, and whichever queries and stops fail: a running container with started_at set that some sweep has not missed is no older than the timeout (or the longest start, if that takes longer) plus the length of a sweep plus (f + 1) * 5 minutes, when f sweeps in a row have failed to stop it since its row was last written |
| `AutoStop.HaltedIs` | `service/hostContainerService.go:693-697` | of Docker's containers, the sweep halts exactly those of the rows it stops |
| `AutoStop.BoundIsReached` | `service/repository.go:94-101` | that bound is reached, for every f, every timeout and every sweep of at most 5 minutes |
| `AutoStop.StoppedIsSwept` | `service/repository.go:94-115` | stopping the rows of the query one after the other, in any order, is one simultaneous update of the table |
| `TokenBucket.SoloWindow` | `middlware/ratelimit.go:78-81` | one bucket lets through at most the burst plus the tokens earned in any window |
| `TokenBucket.StaysFaithful` | `middlware/ratelimit.go:36-59` | a table from which only full buckets are dropped answers each key like a bucket of its own |
| `RateLimiter.Limiter.Allow` | `middlware/ratelimit.go:81` | allows iff at least one token is at hand, and takes one; a refusal changes nothing |
| `RateLimiter.IPRateLimiter.GetLimiter` | `middlware/ratelimit.go:36-46` | the machine's step: returns the address's own limiter, made full when there is none, and marks the address as seen; the request holds it from then on |
| `RateLimiter.IPRateLimiter.Ask` | `middlware/ratelimit.go:78-90` | the machine's step and its decision, on the limiter the request holds, whether or not the address has been evicted or has another limiter by then |
| `RateLimiter.IPRateLimiter.Cleanup` | `middlware/ratelimit.go:48-59` | the machine's step: exactly the addresses idle for more than ten minutes are deleted |
| `RateLimitRuns.EvictionUnobservable` | `middlware/ratelimit.go:36-59` | over any time-ordered trace of requests that find and ask their limiter at once, for many addresses and with sweeps anywhere, each address gets the decisions of one never-evicted bucket fed with its own requests, whenever burst <= 600 * rate |
| `RateLimitRuns.EvictionUnobservableExactly` | `middlware/ratelimit.go:48-57` | eviction is unobservable on all traces of such requests iff burst <= 600 * rate |
| `RateLimitPauses.PausesUnobservableExactly` | `middlware/ratelimit.go:36-81` | for requests of many addresses that overlap, each asking its limiter at most a pause of p seconds after finding it, with evictions in between: for every p, over all runs each address gets the decisions of one never-evicted bucket asked at the same times iff burst <= max(600 - p, 0) * rate |
| `RateLimitPauses.InstalledPause` | `main.go:160` | with 10 a second and a burst of 30 this is so iff p <= 597 |
| `RateLimitPauses.PausedWindowBound` | `middlware/ratelimit.go:36-90` | under that condition, in any window an address gets at most burst + rate * length requests through |
| `RateLimitRuns.InstalledLimits` | `main.go:160` | the limits installed, 10 a second with a burst of 30, satisfy it |
| `RateLimitRuns.WindowBound` | `middlware/ratelimit.go:36-90` | in any window, evictions included, an address gets at most burst + rate * length requests through |
| `RateLimitRuns.PatientIsNeverRefused` | `middlware/ratelimit.go:78-90` | a client spacing its requests at least 1/rate apart is never refused |
| `Bus.RunsAreOk` | `service/notificationBus.go:30-62` | over any run: no send to a closed channel, no second close, registered iff open, at most 32 buffered, and an item offered is missing only if 32 were buffered at the time |
| `Bus.OffersArePublications` | `service/notificationBus.go:40-49` | what a subscriber received and has buffered is an ordered subsequence of what was published to its user while it was subscribed |
| `Bus.OthersUntouched` | `service/notificationBus.go:40-49` | publishing to one user changes no channel of another |
| `Bus.CancelTwice` | `service/notificationBus.go:51-62` | a repeated cancel, at any later time, does nothing |
| `NotificationBus.RemoveAt` | `service/notificationBus.go:57` | the in-place shift on the backing array removes exactly that entry and keeps the order of the others |
| `NotificationBus.AppendFor` | `service/notificationBus.go:33` | an append, in place or with a new array, adds the channel at the end of its user's list and changes no other list |
| `NotificationBus.NotificationBus.Subscribe` | `service/notificationBus.go:30-36` | the machine's step, on slices whose arrays are shared between old and new headers |
| `NotificationBus.NotificationBus.Publish` | `service/notificationBus.go:40-49` | the machine's step: one non-blocking send to each subscriber in turn |
| `NotificationBus.NotificationBus.Unsubscribe` | `service/notificationBus.go:51-62` | the machine's step: the channel is removed and closed if it is there, else nothing happens |
| `Networks.RunsKeepInv` | `service/networkService.go:36-170` | after every operation of every fault-free run, refused operations included, membership rows and Docker endpoints are the same relation, aliases included, each row joins a container and a network of one user, and Docker has exactly the networks that have a row |
| `Networks.MemberIffEndpoint` | `service/networkService.go:98-109` | a container is a member of a network iff Docker has it there, under the same alias |
| `NetworkFaults.AgreesAfterStatement` | `service/networkService.go:60-169` | after an operation whose database statement may fail, rows and Docker agree iff it worked, or Docker had not acted, or what Docker did was taken back |
| `NetworkFaults.AgreesWhenNotRemoved` | `service/networkService.go:156-164` | when Docker does not remove a network, whichever of its containers were listed and disconnected before, they agree iff none was |
| `NetworkFaults.AgreesAfterRemoval` | `service/hostContainerService.go:515-530` | after a committed removal of a container they agree iff Docker removed it or disconnected it from all its networks |
| `NetworkFaults.AgreesAfterUserDeletion` | `service/repository.go:295-309` | after the deletion of a user they agree iff the user had no network: Docker keeps each of them, and what is on it |
| `NetworkFaults.OverlapBreaks` | `service/networkService.go:98-141` | a disconnect that runs between the two parts of a connect leaves a row without an endpoint, in every store in which the connect can start |
| `Networks.ConnectThenDisconnect` | `service/networkService.go:74-142` | disconnecting undoes connecting, in the tables and in Docker |
| `Networks.DockerNamesDiffer` | `service/networkService.go:48-49` | Docker names of different users or different network names never collide |
| `NetworkManagers.NetworkManager.CreateNetwork` | `service/networkService.go:36-72` | succeeds iff the user is below the limit, the name is free and the insert works; a failing insert leaves no trace in Docker |
| `NetworkManagers.NetworkManager.ConnectContainer` | `service/networkService.go:74-110` | succeeds iff both rows belong to the user, Docker accepts and the insert works; what is left when the insert fails is Docker's part alone |
| `NetworkManagers.NetworkManager.DisconnectContainer` | `service/networkService.go:112-142` | succeeds iff both rows belong to the user, the endpoint exists and the deletion works; what is left when it fails is Docker's part alone |
| `NetworkManagers.NetworkManager.DeleteNetwork` | `service/networkService.go:144-170` | whether or not the inspection and each disconnection work: Docker lets the network go iff no running container is left on it, and then network, endpoints and membership rows go, also those of stopped containers that are not listed; what is left when Docker refuses or the deletion fails |
| `NetworkManagers.NetworkManager.RemoveContainer` | `service/hostContainerService.go:494-530` | nothing changes unless the deletion commits; then the container's rows go, and the endpoints and the container as far as Docker takes them down |
| `NetworkList.ListNetworks` | `service/networkService.go:187-220` | the loops over rows and order give the listing of the specification, for any row order |
| `NetworkList.FirstAppearanceOrder` | `service/networkService.go:196-205` | each network is listed once, in the order of first rows |
| `NetworkList.MembersConserved` | `service/networkService.go:206-213` | the entries hold together as many members as there are rows with one |
| `NetworkList.InterleavingIsIrrelevant` | `service/networkService.go:190-214` | an entry depends on the rows of its own network alone |
| `NetworkList.ListsTheNetworks` | `service/networkService.go:173-181` | a user is listed exactly the networks the user owns |
| `NetworkList.ListsWhatDockerHas` | `service/networkService.go:172-221` | a container is listed under a network with an alias iff Docker has it there under that alias |
| `Tokens.UsedAtMostOnce` | `repository/tokenRepo.go:70-90` | in every interleaving a token is consumed at most once, by its user, for its type and before it expires |
| `Tokens.DeadStaysDead` | `repository/tokenRepo.go:44-49` | a link that was used, replaced or deleted is never consumed again |
| `Tokens.LiveBound` | `repository/tokenRepo.go:37-60` | when invalidations succeed and at most k Create calls of a user and type overlap, unused tokens plus pending inserts never exceed k, so serial use leaves one |
| `TokensTight.LiveBoundIsTight` | `repository/tokenRepo.go:37-60` | for every k, k overlapping calls leave k links live |
| `TokensTight.LiveIsLatest` | `repository/tokenRepo.go:44-59` | in serial use, with invalidations that work, every live link of a user and type is the latest one inserted |
| `TokensTight.OnlyLatestExactly` | `repository/tokenRepo.go:44-49` | over all runs in which invalidations work, only the latest link of a user and type is ever live iff calls do not overlap |
| `Tokens.TokenRepo.Create` | `repository/tokenRepo.go:37-60` | what is live after a call, for each failing statement: the new link alone, the new one beside the old ones, the old ones, or none; the table is the one after the steps of the machine in a row |
| `Tokens.TokenRepo.Consume` | `repository/tokenRepo.go:70-90` | succeeds iff the token is unused, of the type and not expired, and then it no longer is usable; the table is the one after the machine's step |

## Left out

- HTTP handlers, WebSocket and SSE plumbing, CORS, logging, metrics, tracing, mail, migrations: I/O around the parts modelled.
- JWT, bcrypt, SHA-256 and random generation: library code.
- Template and image listing, admin statistics, CPU arithmetic of snapshots, API keys: easy, or the quota lemma again.
- `Networks.RunsKeepInv`: covers operations that work or are refused, one at a time. Failing statements, failing Docker calls, the deletion of a user and an overlap are the subject of the results of NetworkFaults.dfy; runs in which several of them come together are not modelled.
- `Tokens.LiveBound`: is for runs in which invalidations succeed, because the code goes on when one fails.
- `RateLimitPauses.PausesUnobservableExactly`: time and tokens are real numbers, the limiter's floating-point rounding is not modelled.
- Telling the owner about an auto-stop: the sweep's query never reads the user id, so the notification goes to no one (`service/repository.go:97-109`, `service/hostContainerService.go:700`).
- `find -maxdepth 10`: files deeper than ten levels are not listed and so not shown.
- A second failing query after an "unhealthy" event, which only suppresses the notification.
- The address a request is counted under (`clientIP`): any string.
- Names and images of containers, memory and CPU limits, package installation: columns and calls no property depends on.
- `LifecycleLocks.RowFollowsDocker`: is for runs in which no container stops or starts by itself and crash recovery writes no status; what recovery writes is in Recovery.dfy. Row locks other than those of starts and stops are not modelled: a removal's DELETE and its commit are one step.
- The channel's own concurrency in the bus: each method runs under the mutex, and a send is one step.
- Recovery of several containers in one run: rows are independent, and every theorem holds for each container.
