# Verified model of the ride-hailing backend's stateful parts

The backend has a handful of components whose correctness is a matter of whole runs: a rate limiter with an idle
sweep, a WebSocket hub per trip, dispatch of trips to drivers, rider wallets with trip charging, trip queues, read-through
caches and the geo index of driver positions. This project models each of them in Dafny and proves what they promise over
every run, or exactly when they do.

The tables of Postgres and the structures of Redis are maps and sequences. Objects the Go code updates in place are
classes whose methods are proved against specification functions; the theorems are about those functions and about step
machines built from them. Clocks, generated identifiers, network replies and failing store calls are parameters.

| module | models |
|---|---|
| `Common` | what several components share: options, results, trip statuses, availability |
| `RateLimit` | the limiter's configuration, one bucket, the map of buckets, the classes |
| `RateLimitRuns` | interleaved requests, with and without the sweep, and the simulation between the two |
| `RateLimitBounds`, `RateLimitExact` | rate bound and paced clients; when exactly the sweep is invisible, and that the bound is attained |
| `Hub`, `HubRuns` | a trip's hub: its classes, and runs of connections, publishers, hub, writers and readers |
| `HubRegistry` | the double-checked lookup of hubs under a read/write lock |
| `Dispatch`, `DispatchService` | tables and service calls as functions, and the calls as the source makes them |
| `DispatchEffects` | what each dispatch call does: when it succeeds and all it changes |
| `DispatchBooking`, `DispatchAgreement`, `DispatchMatching`, `DispatchLifecycle` | no double booking, agreement of trip and assignment row, queue matching, trip lifecycle |
| `Wallet`, `WalletInterleaving` | the ledger with 64-bit amounts and the wallet classes; concurrent row-locked transactions |
| `TripCharging`, `TripSolvency` | charging on completion, and solvency of riders with open trips |
| `Queues` | the Redis list and the SQS consumer |
| `StaleCache`, `CachedPromotions`, `RouteCache` | bounded staleness for any cache with a time to live; promotions; routes |
| `LocationIndex` | geo set, metadata hash, location history and the nearby search |

## Where the code and its promises differ

- The comment on `NewTokenBucketRateLimiter` promises `<requests>` per `<window>`. A client can get `requests` at once and
  one more per interval, so twenty in a minute for ten a minute (`RateBoundAttained`, `TwentyInAMinute`, `RateBound`).
- The idle sweep changes no answer exactly when a bucket emptied by a request as late as requests may be has refilled
  before it is forgotten (`SlackExactly`); for a limiter as configured that is a window of at least a nanosecond per
  request (`SweepInvisibleExactly`). Below that the one-second interval refills slower than the sweep forgets. How late a
  request may ask the bucket it looked up matters; `LateRequestVisible` gives the bound for ten a minute.
- The default configuration sets every fare to zero, and the wallet service rejects zero amounts, so with it every charge
  of a completed trip is refused (`DefaultFaresRefused`). The wallet service's own test of a trip's lifecycle
  (`backend/internal/domain/wallet_service_test.go`) expects fares that deduct.
- Balances are 64-bit and added without a check. `LedgerSum` and `Conservation` say what always holds, and that the
  balance is the plain difference exactly if that fits. A rider who keeps topping up reaches a negative balance even with
  the default limits (`DefaultTopUpsOverflow`).
- The driver service writes completed trips to the rows the trip service charges for, but charges nobody. A trip that a
  driver completed is never charged unless it is reopened (`DriverCompletedIsFree`), which accepting it does.
- `AcceptTrip` and `UpdateTripStatus` have no conflict check. `AcceptKeepsExactly` and `AdvanceKeepsExactly` say exactly
  when they book a driver twice, and `BusyDriverBookedTwice` gives a run, one half of it through a call that is refused.
- A decline by a driver without the row clears the trip's driver (`DeclineAgreesExactly`, `StrayDecline`).
- The balance check when a trip is created reserves nothing (`CreateSolventExactly`).
- A trip that is completed but cannot be paid is completed all the same: the caller gets the error of the deduction after
  the status is written (`UpdateExactly`), with the default fares every time (`DefaultCompletionRefused`).
- A handler may send snapshots into a channel the hub has closed. Its next snapshot is safe exactly while the broadcasts
  since its registration and its earlier snapshots are at most sixteen together (`SnapshotSafeExactly`); after that the
  handler can panic, which ends that handler and leaves the hub running.
- `Nearby` asks Redis for distances but not for coordinates, which the client library then leaves at zero. A search shows
  drivers where they are exactly if its query asks for coordinates (`ShowsPositionsExactly`, `NearbyMisplaces`).
- The straight line served when the routing service cannot be reached is cached like a route of the service, and is served
  on after the outage until it expires (`OutageLingers`). `RouteStaleness` is about both kinds of route, and `FiledExactly`
  tells them apart.

## Model

| member | source | states |
|---|---|---|
| `RateLimit.ConfigureMeaning` | backend/internal/http/middleware/rate_limit.go:31-50 | For positive arguments the burst is `requests`, the idle time two windows and the interval `window / requests`, or a second if that is less than a nanosecond; others act as ten and a minute; a full bucket is earned within the window exactly when the window has a nanosecond per request |
| `RateLimit.TakeMeaning` | backend/internal/http/middleware/rate_limit.go:69 | An admitted request costs one interval, a refused one nothing, whenever the bucket is asked next |
| `RateLimit.Limiter.Allow` | backend/internal/http/middleware/rate_limit.go:69 | One question to a bucket: admitted exactly when the refilled, capped credit covers one interval; a refusal changes nothing |
| `RateLimit.TokenBucketRateLimiter.constructor` | backend/internal/http/middleware/rate_limit.go:31-50 | The new limiter has the computed configuration and no buckets |
| `RateLimit.TokenBucketRateLimiter.GetLimiter` | backend/internal/http/middleware/rate_limit.go:77-98 | A known client gets its bucket and a refreshed hit time; an unknown one a full new bucket, and then exactly the entries idle longer than the time-to-live are gone |
| `RateLimitRuns.RunFacts` | backend/internal/http/middleware/rate_limit.go:60-98 | In every run credits stay between nothing and full, no bucket or hit is dated in the future, and every request in flight holds a bucket made for its client |
| `RateLimitRuns.GetSameClient` | backend/internal/http/middleware/rate_limit.go:77-98 | Deleting an idle bucket loses nothing: the one that never deletes has refilled it, so each client is worth the same with and without the sweep |
| `RateLimitRuns.RunsSimilar` | backend/internal/http/middleware/rate_limit.go:60-98 | Over every interleaving, the sweeping map simulates the one that never deletes, requests in flight included |
| `RateLimitExact.SlackExactly` | backend/internal/http/middleware/rate_limit.go:77-98 | For any burst, interval and idle time, and requests that may ask their bucket `slack` after looking it up, the sweep changes no answer in any run if and only if slack plus the time to fill a bucket is at most the idle time and a nanosecond |
| `RateLimitExact.SweepInvisibleExactly` | backend/internal/http/middleware/rate_limit.go:38-48 | As configured, with requests that ask within a window: if and only if the effective window is at least the effective number of requests in nanoseconds |
| `RateLimitBounds.SweepInvisibleAt` | backend/internal/http/middleware/rate_limit.go:77-98 | The same at every moment of a run |
| `RateLimitExact.LateRequestVisible` | backend/internal/http/middleware/rate_limit.go:68-69 | For ten a minute the sweep is invisible exactly while requests ask at most a minute and a nanosecond after their lookup |
| `RateLimitBounds.KeepBound` | backend/internal/http/middleware/rate_limit.go:60-98 | Without the sweep, a client's admissions over steps spanning time L are at most burst + L / interval |
| `RateLimitBounds.RateBound` | backend/internal/http/middleware/rate_limit.go:31-98 | Across evictions, for every configuration with a nanosecond per request, every run, client and stretch of time: at most `requests` and one more for each `window / requests` of it |
| `RateLimitBounds.TenPerMinute` | backend/internal/http/middleware/rate_limit.go:30-50 | Ten a minute admits at most twenty in any minute |
| `RateLimitExact.RateBoundAttained` | backend/internal/http/middleware/rate_limit.go:38-45 | The bound is reached: `requests + n` within n times `window / requests`, for all arguments and n |
| `RateLimitExact.TwentyInAMinute` | backend/internal/http/middleware/rate_limit.go:30-50 | Ten a minute does admit twenty within one minute |
| `RateLimitBounds.PacedNeverRefused` | backend/internal/http/middleware/rate_limit.go:60-98 | A client whose requests are an interval apart is never refused, for every configuration, with or without the sweep, whatever others do |
| `Hub.TripHub.Register` | backend/internal/http/handlers/ws.go:243-244 | The client joins the map; members' channels stay open |
| `Hub.TripHub.Unregister` | backend/internal/http/handlers/ws.go:245-249 | A member leaves and its channel is closed then and only then; for others nothing happens |
| `Hub.TripHub.Broadcast` | backend/internal/http/handlers/ws.go:250-258 | In whatever order the map is ranged over, each member gets the message at the end of its channel, or is closed and dropped exactly if that was full |
| `HubRuns.GapFree` | backend/internal/http/handlers/ws.go:240-270 | In every run a connection is given a contiguous stretch of the publication order, from its registration to the present for a member, to the broadcast count at its unregistration, or up to but not including the broadcast that found sixteen items waiting; what is written out is a prefix of it |
| `HubRuns.SameOrder` | backend/internal/http/handlers/ws.go:240-261 | Two connections that were members throughout the same broadcasts got the same payloads in the same order |
| `HubRuns.ClosedOnce` | backend/internal/http/handlers/ws.go:245-258 | A channel is closed at most once, exactly when its connection leaves the map, and the hub only offers to open ones |
| `HubRuns.Joins` | backend/internal/http/handlers/ws.go:243-244 | From its registration on a connection is a member with an open, empty channel, and its stretch of the order starts there |
| `HubRuns.Publishes` | backend/internal/http/handlers/ws.go:263-270 | What is published goes to the end of the order of publication |
| `HubRuns.ReaderCanLeave` | backend/internal/http/handlers/ws.go:91-95 | A handler that reads can unregister whenever the hub is between broadcasts, and not in the middle of one |
| `HubRuns.Leaves` | backend/internal/http/handlers/ws.go:245-249 | Unregistering takes a member out there and then and closes its channel, leaves a dropped connection as it was, and nobody else notices; in every continuation the connection is sent nothing more |
| `HubRuns.LeftForGood` | backend/internal/http/handlers/ws.go:245-258 | However a connection left, in every continuation it stays out and closed and is sent nothing |
| `HubRuns.WriterTakes` | backend/internal/http/handlers/ws.go:187-212 | A writer let run takes the items sent and not yet received, in the order they were sent, and changes nothing else |
| `HubRuns.HubNeverBlocks` | backend/internal/http/handlers/ws.go:240-261 | From every reachable state the hub, by steps of its own that no client can hold up and that each leave it less to do, takes up all that was published, in order, and offers it to everyone |
| `HubRuns.SnapshotSafe` | backend/internal/http/handlers/ws.go:360-399 | A snapshot send meets an open channel, and its handler does not panic, if the broadcasts taken up since the registration and the snapshots sent before are at most sixteen |
| `HubRuns.SnapshotSafeExactly` | backend/internal/http/handlers/ws.go:360-399 | For every number of broadcasts and of earlier snapshots: the send is safe in all runs if and only if they are at most sixteen together |
| `HubRuns.SnapshotPanics` | backend/internal/http/handlers/ws.go:366-390 | For every larger number there is a run in which the next snapshot is sent on a closed channel |
| `HubRegistry.OneHubPerTrip` | backend/internal/http/handlers/ws.go:288-305 | In every interleaving of callers, all callers for a trip return the same hub, and it is the only one created for that trip |
| `HubRegistry.NoRace` | backend/internal/http/handlers/ws.go:289-298 | While a caller may write the map, nobody else reads or writes it |
| `HubRegistry.FoundReturns` | backend/internal/http/handlers/ws.go:289-294 | A caller that found the hub returns it on releasing the read lock, without the write lock |
| `HubRegistry.GetReturns` | backend/internal/http/handlers/ws.go:288-305 | A caller let through returns the trip's hub, or a new one that is the trip's from then on, releases the lock and changes no other trip's hub |
| `DispatchService.DriverService.AssignRow` | backend/internal/db/trip_assignment_repository.go:37-85 | Insert or take over the trip's row, pending, refused for unknown trips and drivers |
| `DispatchService.DriverService.UpdateRowStatus` | backend/internal/db/trip_assignment_repository.go:87-124 | Sets the status of the row of that trip and driver, or reports that there is none |
| `DispatchService.DriverService.SetDriver` | backend/internal/db/trip_repository.go:172-197 | Sets or clears the trip's driver and nothing else |
| `DispatchService.DriverService.SetStatus` | backend/internal/db/trip_repository.go:152-170 | Sets the trip's status and nothing else |
| `DispatchService.DriverService.SetAvailability` | backend/internal/domain/driver_service.go:153-173 | Sets a registered driver's status and its time, and refuses anything but online and offline |
| `DispatchService.DriverService.AssignDriver` | backend/internal/domain/driver_service.go:220-258 | The whole new state and the error of each refused case, as `AssignTrip` |
| `DispatchService.DriverService.AcceptAssignment` | backend/internal/domain/driver_service.go:304-328 | The call with its assign-first fallback leaves the state of `AcceptTrip` |
| `DispatchService.DriverService.DeclineAssignment` | backend/internal/domain/driver_service.go:331-346 | The call leaves the state of `DeclineTrip`, the lenient case included |
| `DispatchService.DriverService.AdvanceTrip` | backend/internal/domain/driver_service.go:349-402 | The call, auto-assignment and promotion included, leaves the state of `UpdateTripStatus`, also where it fails half-way |
| `DispatchService.DriverService.HandleTripEvent` | backend/driver_service/internal/server/server.go:264-273 | An event is dropped when handled or when no driver is available, and reported as an error otherwise |
| `DispatchService.DriverService.ClearAll` | backend/internal/db/trip_assignment_repository.go:172-177 | Removes the rows and nothing else |
| `DispatchEffects.AssignExactly` | backend/internal/domain/driver_service.go:220-258 | A trip is assigned if and only if it and the driver exist and the driver is online and has no active row for another trip; then the row is pending, the trip the driver's and all else as before; refusals change nothing |
| `DispatchEffects.AcceptExactly` | backend/internal/domain/driver_service.go:304-328 | Accepting succeeds if and only if trip and driver exist; then the row is the driver's and accepted, the trip accepted, and a driver without the row becomes the trip's |
| `DispatchEffects.DeclineExactly` | backend/internal/domain/driver_service.go:331-346 | The row's driver leaves it declined and the trip without a driver; a stranger leaves the rows alone and clears the trip's driver; the trip keeps its status |
| `DispatchEffects.DeclineFrees` | backend/internal/domain/driver_service.go:331-346 | Declining the trip they hold makes an online driver available again |
| `DispatchEffects.AdvanceExactly` | backend/internal/domain/driver_service.go:349-402 | A status update succeeds if and only if trip and driver exist and the transition is allowed; then the trip has the status and the driver, and the row is the driver's, accepted on the way and cancelled at the end |
| `DispatchEffects.AdvanceRefusedExactly` | backend/internal/domain/driver_service.go:349-378 | A refused update changes nothing, except that a refused transition leaves the trip and a pending row with the caller |
| `DispatchEffects.AvailabilityExactly` | backend/internal/domain/driver_service.go:153-173 | A registered driver is online if and only if they last asked to be, waiting from then on; offline drivers are not found; nobody else changes |
| `DispatchEffects.EventExactly` | backend/driver_service/internal/server/server.go:264-273 | An event is dropped if and only if it names no trip, no driver is idle, or its trip exists and is now assigned to the driver found; otherwise nothing was done |
| `DispatchEffects.NewcomersExactly` | backend/internal/domain/service.go:44-51 | A trip starts requested and nobody's, a driver offline |
| `DispatchBooking.FindActiveMeaning` | backend/internal/db/trip_assignment_repository.go:141-157 | Finds a pending or accepted row of the driver if there is one, the one updated last |
| `DispatchBooking.ConflictCheckIsFree` | backend/internal/domain/driver_service.go:239-243 | Looking at that one row is enough: the check passes exactly for drivers without an active row elsewhere |
| `DispatchBooking.AntiJoin` | backend/internal/db/driver_repository.go:183-188 | A driver joins with a null row exactly if registered, online and without active rows |
| `DispatchBooking.FindAvailableMeaning` | backend/internal/db/driver_repository.go:174-199 | The query answers with an idle driver whose status is the oldest, and with nobody exactly if none is idle |
| `DispatchBooking.AcceptKeepsExactly` | backend/internal/domain/driver_service.go:304-328 | Accepting books nobody twice if and only if the driver is free for the trip or the call is refused |
| `DispatchBooking.AdvanceKeepsExactly` | backend/internal/domain/driver_service.go:349-402 | Updating a trip's status books nobody twice if and only if the driver is free for the trip or keeps no active row from it |
| `DispatchBooking.HolderIsFree` | backend/internal/domain/driver_service.go:239-243 | The holder of a trip's active row is free for that trip |
| `DispatchBooking.BusyDriverBookedTwice` | backend/internal/domain/driver_service.go:303-369 | From a reachable state, a busy driver's accept, and likewise a status update that is refused, leaves two active rows |
| `DispatchBooking.RowsAlwaysRefer` | backend/internal/db/trip_assignment_repository.go:37-85 | In every run whatsoever, at most one row per trip, and rows only of existing trips and drivers |
| `DispatchBooking.NoDoubleBooking` | backend/internal/domain/driver_service.go:208-258 | In every run, duplicate deliveries included, in which only drivers free for a trip accept or advance it, a driver has at most one active row and a trip at most one row |
| `DispatchAgreement.AcceptAgreesExactly` | backend/internal/domain/driver_service.go:304-328 | Accepting keeps trip and row in agreement if and only if the driver had not declined that row |
| `DispatchAgreement.DeclineAgreesExactly` | backend/internal/domain/driver_service.go:331-346 | Declining keeps it if and only if the row is the driver's or the trip has no driver |
| `DispatchAgreement.ClearAgreesExactly` | backend/internal/domain/driver_service.go:405-410 | Purging the rows keeps it if and only if no trip has a driver |
| `DispatchAgreement.AdvanceAgrees` | backend/internal/domain/driver_service.go:349-402 | A status update keeps it whoever calls, rejected ones included |
| `DispatchAgreement.StepAgreesExactly` | backend/internal/domain/driver_service.go:208-410 | Any one call keeps it if and only if it is careful in the sense of the three conditions above |
| `DispatchAgreement.TripAndAssignmentAgree` | backend/internal/domain/driver_service.go:245-251 | In every run of careful calls, a trip with a driver has that driver's row, and the driver of an active row is the trip's |
| `DispatchAgreement.StrayDecline` | backend/internal/domain/driver_service.go:334-338 | From a reachable state, a decline by a stranger leaves the active row but takes the trip's driver away |
| `DispatchMatching.StepWaiting` | backend/driver_service/internal/server/server.go:264-273 | Handling one event takes the longest-waiting idle driver, and nobody else, out of the idle ones, or changes nothing when there is none |
| `DispatchMatching.MatchesMin` | backend/internal/domain/driver_service.go:208-217 | Of n events for distinct waiting trips and m idle drivers exactly the first min(n, m) are matched, to distinct drivers, longest waiting first; matched trips are pending with their driver, the others as before, and every event is dropped without error |
| `DispatchLifecycle.TransitionMeaning` | backend/internal/domain/driver_service.go:436-451 | The allowed transitions are: end a trip that has not ended, or take an accepted or later one to the next rank |
| `DispatchLifecycle.AdvanceStatus` | backend/internal/domain/driver_service.go:349-402 | A status update by a known driver succeeds exactly on an allowed transition; refused ones and other trips keep their status |
| `DispatchLifecycle.AcceptStatus` | backend/internal/domain/driver_service.go:324-326 | A successful accept sets that trip to accepted, a failed one no status |
| `DispatchLifecycle.AcceptRaisesExactly` | backend/internal/domain/driver_service.go:304-328 | A successful accept moves the trip forward if and only if it was requested |
| `DispatchLifecycle.StepRaises` | backend/internal/domain/driver_service.go:324-402 | A successful accept of a requested trip or status update strictly raises its rank; nothing else changes a status |
| `DispatchLifecycle.MovedAtMostRank` | backend/internal/domain/driver_service.go:349-451 | In every run that accepts only requested trips, a trip is moved at most four times |
| `DispatchLifecycle.TerminalAbsorbs` | backend/internal/domain/driver_service.go:446-447 | In such runs ranks never fall, and completed and cancelled trips stay as they are |
| `DispatchLifecycle.RideArrives` | backend/internal/domain/driver_service.go:208-402 | The bound of four is met: a run of proper calls takes a trip through every status to completed and leaves its driver available |
| `Wallet.LedgerSum` | backend/internal/db/wallet_repository.go:135-147 | A wallet its ledger explains holds top-ups less deductions and the rewards, each modulo two to the 64 and each exactly if and only if it fits; the difference is never negative |
| `Wallet.TopUpOverflowsExactly` | backend/internal/domain/wallet_service.go:108-120 | An admitted top-up leaves less than there was if and only if the sum does not fit 64 bits |
| `Wallet.DefaultTopUpsOverflow` | backend/internal/domain/wallet_service.go:68-83 | Under the default configuration 1844674407371 largest top-ups, each admitted, end in a negative balance |
| `Wallet.TransactExactly` | backend/internal/db/wallet_repository.go:105-179 | Committed if and only if there is a rider, the amount is not negative, the kind known and a deduction covered; the amount is added to or taken from the right column of that rider alone, with one ledger row; refusals change nothing |
| `Wallet.ServiceExactly` | backend/internal/domain/wallet_service.go:170-192 | The service admits what the repository does, less empty amounts and top-ups outside the limits |
| `Wallet.TopUpExactly` | backend/internal/domain/wallet_service.go:108-120 | Admitted if and only if within the limits, and then the balance grows by the amount |
| `Wallet.DefaultLimits` | backend/internal/domain/wallet_service.go:68-71 | By default a top-up is between 10000 and 5000000 |
| `Wallet.FareExactly` | backend/internal/domain/wallet_service.go:194-201 | A positive fare listed under the lower-cased service is the one charged, in every other case the default |
| `Wallet.DeductExactly` | backend/internal/domain/wallet_service.go:139-192 | A trip can be charged if and only if its fare is positive and covered; then the fare leaves the balance and a row in the ledger; a refusal changes nothing |
| `Wallet.RewardExactly` | backend/internal/domain/wallet_service.go:153-167 | A rider is never refused the reward: the configured points and a row, or nothing to be seen if there are none |
| `Wallet.EnsureExactly` | backend/internal/domain/wallet_service.go:123-136 | Passes if and only if the balance covers the fare, tells the fare, and changes nothing anyone can see |
| `Wallet.DefaultFaresRefused` | backend/internal/domain/wallet_service.go:68-83 | With the default fares every charge is refused |
| `Wallet.WalletRepository.Get` | backend/internal/db/wallet_repository.go:49-75 | Reads the wallet, creating an empty row on first touch; a failure changes nothing |
| `Wallet.WalletRepository.ApplyTransaction` | backend/internal/db/wallet_repository.go:105-179 | Commits wallet and ledger row together as `Transact` says, or leaves both as they were |
| `Wallet.WalletService.ApplyTransaction` | backend/internal/domain/wallet_service.go:170-192 | The checked transaction: result and tables in each of the refused cases and the accepted one |
| `Wallet.WalletService.TopUpWallet` | backend/internal/domain/wallet_service.go:108-120 | A top-up within the limits is committed, another refused without a change |
| `Wallet.WalletService.EnsureBalanceForTrip` | backend/internal/domain/wallet_service.go:123-136 | Says whether the balance covers the fare, and changes no amount |
| `Wallet.WalletService.DeductTripFare` | backend/internal/domain/wallet_service.go:139-150 | Charges the service's fare, or the default one |
| `Wallet.WalletService.RewardTripCompletion` | backend/internal/domain/wallet_service.go:153-167 | Grants the configured points, or only reads the wallet when there are none |
| `WalletInterleaving.Serializable` | backend/internal/db/wallet_repository.go:105-179 | In every interleaving of row-locked transactions with first-touch races and failures, the committed rows replayed one at a time all succeed and give the stored wallet |
| `WalletInterleaving.Conservation` | backend/internal/db/wallet_repository.go:105-179 | In every interleaving, the committed top-ups less the committed deductions are never negative, and balance and points are that difference and the committed rewards, modulo two to the 64 and exactly if and only if they fit |
| `WalletInterleaving.LedgerIsCommitted` | backend/internal/db/wallet_repository.go:117-176 | The ledger is exactly the committed transactions, each once; an aborted one left no row |
| `WalletInterleaving.OnlyCommitsWrite` | backend/internal/db/wallet_repository.go:117-176 | Nothing but a commit changes the ledger or what a wallet reads as, so an abort at any point undoes everything |
| `WalletInterleaving.FailExactly` | backend/internal/db/wallet_repository.go:117-176 | Whenever a transaction fails before its commit, the tables are as they were and the wallet it held is free for the next one |
| `WalletInterleaving.Exclusive` | backend/internal/db/wallet_repository.go:119-130 | No two transactions hold the same wallet, whether locked or just inserted |
| `WalletInterleaving.AloneIsTransact` | backend/internal/db/wallet_repository.go:116-176 | Without interference the steps are the transaction of the repository: they commit exactly when it succeeds and leave its tables |
| `WalletInterleaving.AloneIsSerial` | backend/internal/db/wallet_repository.go:105-179 | A transaction run alone keeps every wallet explained by its ledger |
| `TripCharging.TripService.Create` | backend/internal/domain/service.go:29-52 | Refused without rider, origin, destination, service or balance, otherwise stored as requested; nothing is charged |
| `TripCharging.TripService.Update` | backend/internal/domain/service.go:60-96 | The sequence read, write, charge, reward with a failure at any point leaves the state and history of `UpdateStatus` |
| `TripCharging.UpdateExactly` | backend/internal/domain/service.go:60-96 | An update is done if and only if nothing stops it before it writes and, for a completion with wallets, the rider can pay and neither wallet call fails; the status is written as soon as nothing stops it |
| `TripCharging.UpdatePays` | backend/internal/domain/service.go:79-86 | Money moves if and only if a trip is completed whose rider can pay and the deduction does not fail: the fare is gone, the points come unless the reward fails, nobody else's wallet changes |
| `TripCharging.DefaultCompletionRefused` | backend/internal/domain/wallet_service.go:68-83 | With the default configuration every completion is answered with an error although the trip is completed |
| `TripCharging.CreateExactly` | backend/internal/domain/service.go:29-52 | A trip is created, as asked for and requested, if and only if it names its rider, places and service, no store call fails and the balance covers the fare; nobody pays anything |
| `TripCharging.DriverWriteIsDispatch` | backend/internal/domain/driver_service.go:324-389 | The statuses the driver service writes here are those its calls write in dispatch, accepted and refused alike |
| `TripCharging.UpdateEvents` | backend/internal/domain/service.go:60-96 | One call adds nothing exactly when blocked, else the status change, and for a completion a failed charge or a charge and a reward, in that order |
| `TripCharging.ExactCharging` | backend/internal/domain/service.go:60-96 | Over every run with any failures and any writes of the driver service in between, a trip's charge attempts are exactly its completions by the trip service, rewards follow their own paid charge, and a trip never reopened is charged at most once, namely if it is completed and not by a driver |
| `TripCharging.DriverCompletedIsFree` | backend/internal/domain/driver_service.go:387-389 | A trip that a driver completed is never charged unless it is reopened |
| `TripCharging.RiderPays` | backend/internal/domain/service.go:29-96 | From a top-up through creation to completion: the rider ends with the top-up less the fare, and the points, after one charge and one reward |
| `TripCharging.UnwiredNeverCharges` | backend/internal/domain/service.go:66-79 | Without wallets no update touches a wallet or attempts a charge |
| `TripSolvency.DeductionsAreFares` | backend/internal/domain/service.go:79-82 | Over every run a rider's committed deductions are exactly the fares of the successful charges of their trips |
| `TripSolvency.CreateSolventExactly` | backend/internal/domain/service.go:39-43 | After a creation the rider can still afford all open trips if and only if the balance covered the new fare on top of theirs |
| `TripSolvency.OpenTripsSolvent` | backend/internal/domain/wallet_service.go:123-201 | If the rider's fares are positive and the balance covers all open trips, completing them in any order, among top-ups that fit, drivers' writes and other riders' activity, fails no charge from then on, and the balance ends at start plus top-ups less the fares completed, but for those a driver completed |
| `TripSolvency.AllCompleted` | backend/internal/domain/wallet_service.go:123-201 | With no trip left open it ends at start plus top-ups less the sum of all the fares, but for those a driver completed |
| `Queues.RedisConserves` | backend/internal/matching/redis_queue.go:50-105 | In every run what was pushed is, as a multiset, what is pending, what the handler was given and what did not decode |
| `Queues.RedisLastInFirstOut` | backend/internal/matching/redis_queue.go:64-84 | The next item taken was always pushed after everything else pending |
| `Queues.RedisRoundTrip` | backend/internal/matching/redis_queue.go:50-103 | What is published and then consumed is the event the handler gets, the rest of the queue left alone; what does not decode is set aside |
| `Queues.RedisReverses` | backend/internal/matching/redis_queue.go:64-103 | Any number of events published and then consumed reach the handler in the opposite order, each once |
| `Queues.RedisQueue.PublishEvent` | backend/internal/matching/redis_queue.go:50-65 | Appends the event, or refuses one without a trip |
| `Queues.RedisQueue.ConsumeOne` | backend/internal/matching/redis_queue.go:84-103 | Removes the last item before the handler sees it; hands it over only if it decodes |
| `Queues.ProcessKeeps` | backend/internal/matching/sqs_queue.go:130-149 | Whatever handler and delete call return, one delivery keeps every deletion earned and no message lost |
| `Queues.SentExactly` | backend/internal/matching/sqs_queue.go:75-91 | A message sent is in the queue with what it says |
| `Queues.ProcessExactly` | backend/internal/matching/sqs_queue.go:130-149 | The handler is called if and only if the message decodes, and the message leaves the queue if and only if it then returns nil and the delete goes through; no other message is touched |
| `Queues.SqsAtLeastOnce` | backend/internal/matching/sqs_queue.go:94-149 | Over every run of deliveries, a message leaves the queue only after a handler call for it returned nil |
| `Queues.SqsConsumer.ProcessMessage` | backend/internal/matching/sqs_queue.go:130-149 | Handler, then deletion, then nothing else; an undecodable message is left alone |
| `Queues.SqsConsumer.ProcessBatch` | backend/internal/matching/sqs_queue.go:124-126 | A batch is its messages processed one after another |
| `StaleCache.BoundedStaleness` | backend/internal/cache/home_cache.go:104-178 | However readers, writers, failed fills and failed invalidations interleave, an answer served at t was the primary's at some moment no earlier than t - ttl - delay |
| `StaleCache.BoundedStalenessPerQuery` | backend/internal/cache/home_cache.go:161-178 | From an empty cache, and to the very query asked where keys tell queries apart, as for promotions and news |
| `CachedPromotions.CachedPromotionRepository.List` | backend/internal/cache/home_cache.go:104-121 | Answers from a live entry, else from the primary, filling the cache; a cache that agreed with the primary still does and the answer is the primary's |
| `CachedPromotions.CachedPromotionRepository.CreatePromotion` | backend/internal/cache/home_cache.go:127-136 | Writes the primary, then invalidates; a cache that agreed still does if the invalidation works |
| `CachedPromotions.CachedPromotionRepository.DeactivatePromotion` | backend/internal/cache/home_cache.go:138-146 | The same for a deactivation |
| `CachedPromotions.NeverStale` | backend/internal/cache/home_cache.go:104-146 | In every sequential run whose invalidations succeed, each answer is what the primary would have said, whatever else fails |
| `CachedPromotions.ListStaleness` | backend/internal/cache/home_cache.go:71-121 | In every run with any failures and writes behind the cache's back, a list answered at t is what the primary would have answered at some moment no earlier than t - ttl |
| `CachedPromotions.EntryLivesExactly` | backend/internal/cache/home_cache.go:71-121 | A list filed at t is served before t + ttl and never from then on |
| `CachedPromotions.CallIsMachine` | backend/internal/cache/home_cache.go:104-146 | Every call of the decorator is a run of the staleness machine, with the same answer, entry and table |
| `CachedPromotions.ActiveMeaning` | backend/internal/db/home_repository.go:143-168 | The primary lists the active promotions, each as often as it has it, in the order of the table |
| `CachedPromotions.WritesInvalidate` | backend/internal/cache/home_cache.go:127-146 | A write the primary refuses changes nothing; any other is made and drops the cached list, unless just that fails |
| `CachedPromotions.WritesExactly` | backend/internal/db/home_repository.go:195-235 | A creation adds its promotion and moves none past another; a deactivation touches that promotion alone |
| `CachedPromotions.FailedInvalidationExactly` | backend/internal/cache/home_cache.go:127-136 | After a failed invalidation of a creation the cache is right if and only if it was empty |
| `CachedPromotions.FailedDeactivationExactly` | backend/internal/cache/home_cache.go:138-146 | Likewise if and only if it was empty or no such promotion was active |
| `RouteCache.Client.FromCache` | backend/internal/routing/osrm.go:145-157 | An entry is served up to and including its expiry, and never without a time to live |
| `RouteCache.Client.SaveCache` | backend/internal/routing/osrm.go:159-167 | Files the route until its expiry, or nothing without a time to live |
| `RouteCache.Client.SyntheticRoute` | backend/internal/routing/osrm.go:292-325 | The straight line at average speed, a minute at least, served and filed; nothing between points at no distance |
| `RouteCache.FallbackExactly` | backend/internal/routing/osrm.go:292-325 | There is a fallback if and only if the points are apart; it is as long as the distance and takes the time that needs at average speed, but no less than a minute |
| `RouteCache.Client.GetRoute` | backend/internal/routing/osrm.go:86-129 | A hit changes nothing and asks nobody; a route of the service and a straight line are filed, a refusal is not |
| `RouteCache.OutageLingers` | backend/internal/routing/osrm.go:104-115 | The straight line of an outage is served to every request under its key until it expires, whatever the service would say by then |
| `RouteCache.SharedKeyIsNear` | backend/internal/routing/osrm.go:169-171 | Requests sharing an entry are at most a hundred-thousandth of a degree apart in each coordinate, and are spelled to the service at most ten millionths apart |
| `RouteCache.SharedKeyExactly` | backend/internal/routing/osrm.go:169-171 | Requests share an entry if and only if all four coordinates read the same with five decimals |
| `RouteCache.RoundExactly` | backend/internal/routing/osrm.go:132-171 | Decimals are rounded to the nearest, and from halfway to the even one |
| `RouteCache.TenMillionthsShareKey` | backend/internal/routing/osrm.go:131-171 | Ten millionths are reached |
| `RouteCache.ClientIsMachine` | backend/internal/routing/osrm.go:86-167 | Every whole request is a run of the staleness machine, with the same answer and the same cache afterwards, routed, refused or unreachable |
| `RouteCache.RouteStaleness` | backend/internal/routing/osrm.go:86-171 | A route served at t was the service's route, or the straight line because the service could not be reached, for points that near, at some moment no earlier than t - ttl - delay |
| `RouteCache.FiledExactly` | backend/internal/routing/osrm.go:104-128 | An entry was never filed from a refusal, and holds the service's route if and only if the service could be reached for it, otherwise the straight line |
| `LocationIndex.LatestMeaning` | backend/internal/db/driver_repository.go:383-398 | The latest location is one of the driver's and none of theirs was recorded later |
| `LocationIndex.IndexAgrees` | backend/internal/location/redis_index.go:59-102 | In every run with increasing record times, geo set and hash hold exactly the drivers with a position recorded since they last went offline, each at its latest position and second |
| `LocationIndex.RecordExactly` | backend/internal/domain/driver_service.go:176-192 | Recorded if and only if the driver is known, and then the position and the second in the index, everything else kept |
| `LocationIndex.AvailabilityExactly` | backend/internal/domain/driver_service.go:153-173 | A known driver is online if and only if they asked to be, and leaves the index if and only if they go offline; nobody else changes |
| `LocationIndex.OnlineTracks` | backend/internal/domain/driver_service.go:153-173 | In every run, who is online is who last asked to be |
| `LocationIndex.LocatedExactly` | backend/internal/location/redis_index.go:139-178 | Hits become locations one by one, in order, with the second the hash has or the present time |
| `LocationIndex.OnlineOnlyMeaning` | backend/internal/domain/driver_service.go:261-301 | The search is an order-preserving subsequence of what `Nearby` found: exactly the registered online drivers |
| `LocationIndex.SearchIsCurrent` | backend/internal/domain/driver_service.go:261-301 | In every run each result is one of the names found, a registered online driver with the second recorded last, and at the position recorded last if coordinates were asked for |
| `LocationIndex.ShowsPositionsExactly` | backend/internal/location/redis_index.go:118-171 | Searches show drivers at the position recorded last, in all runs and for all they find, if and only if the query asks for coordinates |
| `LocationIndex.NearbyMisplaces` | backend/internal/location/redis_index.go:118-128 | The query as written does not, so there is a run whose search shows a driver elsewhere |
| `LocationIndex.SearchComplete` | backend/internal/domain/driver_service.go:270-299 | Every registered online driver found is among the results |
| `LocationIndex.GeoIndex.Upsert` | backend/internal/location/redis_index.go:59-85 | Sets position and second of one driver, both structures together |
| `LocationIndex.GeoIndex.Remove` | backend/internal/location/redis_index.go:88-102 | Removes one driver from both structures |
| `LocationIndex.GeoIndex.Nearby` | backend/internal/location/redis_index.go:139-178 | Each named hit once, in order, with the second the hash has for it or else the present time |
| `LocationIndex.DriverLocations.RecordLocation` | backend/internal/domain/driver_service.go:176-192 | A row in the history and the index for a known driver, nothing for an unknown one |
| `LocationIndex.DriverLocations.UpdateAvailability` | backend/internal/domain/driver_service.go:153-173 | Going offline also leaves the index; anything but online and offline is refused |
| `LocationIndex.DriverLocations.SearchNearbyDrivers` | backend/internal/domain/driver_service.go:261-301 | The loop keeps exactly the wanted locations of `Nearby`, in order |

## Left out

- Rate limiter: the middleware's key (client address and bucket name) is any string; the library's floating-point tokens
  are an integer credit in nanoseconds; `window * 2` does not overflow, so windows of 146 years and more are out.
- RateLimit.Limiter.Allow: models the documented behaviour of the rate library, whose source is not part of this model.
- Hub: message parsing, pings, deadlines and the database reads of the connection handlers; a connection's own sockets;
  driver location messages, which reach the hub as any other broadcast.
- Dispatch calls are atomic and their store calls succeed, apart from rows refused for unknown trips and drivers; the
  code runs find-then-assign without a transaction, and promises nothing when two calls overlap.
- Dispatch is wired with a real trip store; direct writes to trips by the trip service, notifications and malformed
  identifiers are not modelled. Which of several equally old drivers the query finds is the database's choice.
- Trips are read from the primary; a lagging read replica could charge a completion twice. Overlapping status updates of
  one trip are not modelled either, the code gives no guarantee there.
- Wallets: listing transactions, timestamps, merging of configurations (the configuration is any value), and lower-casing
  of service names beyond ASCII.
- Queues: pops lost between Redis and the consumer, receive errors and back-off, visibility and retention times of SQS, a
  message without a body or receipt.
- Caches: JSON encoding, the columns that order promotions (their place is a parameter) and their expiry; the great-circle distance of a request (a
  parameter), a route's geometry and steps, coordinates that are not numbers or are negative zero, a request that cannot
  be built, and sharing of the cached route's memory among callers.
- CachedPromotions.NeverStale: sequential calls with all writes through the decorator; for concurrent ones the staleness
  bound is what holds. News has no invalidation at all, so only the bound applies to it.
- Location index: the geometry of the search, which names it finds and its distances; zero and unparsable timestamps;
  failing Redis calls.
- HTTP routing and clients, tokens and passwords, origins and roles, devices and notifications, saved places, users,
  paging, migrations, configuration, logging and metrics.
