# The shop's order pipeline, modelled and proved

A Dafny model of a small online shop whose orders are placed on a primary MySQL database and read back from a primary
and a lagging replica. It follows the shop's Go code branch by branch and proves what the code is there for: money and
stock are never lost, whatever interleaves; readers see whole orders or are told exactly when they do not; events are
handed out exclusively and in bounded time; a cache under a read-write lock stays fresh and is not stampeded.

`dafny verify dfyconfig.toml` checks everything.

## What is modelled

**The tables and the transactions.** `Rows` holds all tables as one map from primary key to row and gives every SQL
statement of the order path its effect, its failure and the rows it locks. `TwoPhase` is the transactional store the
code relies on: statements update rows in place, each touched row stays locked and its before-image recorded until
commit or rollback, and any number of transactions interleave statement by statement. `Orders` writes `CreateOrder` as
the list of statements it sends and follows what a statement list does to stock, units sold and the daily figures.
`Pipeline` is the running shop: order requests, cart statements and outbox workers, aborts anywhere, ids assigned by
AUTO_INCREMENT, and a replica that applies the commit log from the front.

**The repositories.** `Database`, `Cart` and `OrderRepository` are the imperative side: a `Primary` object that is
fed statements, whose calls fail where a given set of call numbers says so, and whose store the methods change; `CreateOrder` keeps its `committed` flag and
its deferred rollback. `Report.Monthly` and `OrderRepository.FindOrder` are the read side.

**What reads or drains the pipeline.** `DerivedData` (outbox events and daily summary against the orders), `Routing`
and `ReplicaHealth` (which side a read goes to), `OrderReads` and `TornRead` (the two reads of `FindOrder`),
`OutboxWorkers` (many workers at once), `OutboxProgress` (how soon one worker reaches an event) and `OneWorker` (the
first machine with a single worker does what the second says, and can always go on). `SerialRuns` is the other half of
serial equivalence: what goes through serially is a run.

**Self-contained parts.** `CategoryCache` and `CacheObject` (double-checked locking, and the slices themselves),
`Migrate` and `MigrationRuns` (the script splitter and the runner), `Money` (the yen printer), `Catalog` (paging),
`Sessions` (the sessions table and its sweep). `Ordering`, `Arithmetic`, `Text` and `Decimal` are the common ground:
SQL's ORDER BY over a strict order, quotients, Go's string functions, digits and 64-bit wrap-around.

## The main results

- *Serial equivalence* (`Pipeline.SerialEquivalence`): whatever the interleaving and the aborts, the committed tables
  are those of the committed jobs run one after the other in commit order, and in that serial run no statement fails.
  Conversely every such serial list of jobs is a run (`SerialRuns.EverySerialRunHappens`).
- *Stock conservation* (`Pipeline.StockConservation`): in every reachable state, in the middle of transactions too,
  stock plus units in committed order items plus units reserved in flight is the opening stock, and stock is never
  negative.
- *Derived data* (`DerivedData.DerivedDataAgrees`, `Report.MonthlyAddsUp`): on every prefix of the log, hence on the
  primary and on any replica, the summary is the fold over that prefix's orders and events match orders one to one.
- *Reads* (`OrderReads.UntornReads`, `PrimaryThenReplica`, `ReadYourWrites`, `TornRead.TornReadReachable`): which pairs
  of routing decisions give whole orders, exactly when the remaining pair is torn, and runs in which it is.
- *CreateOrder undisturbed* (`OrderRepository.CreateOrder`): when no call to the database fails and no other transaction
  holds a row of the order, it commits if and only if the cart is not empty and every line is covered by stock; on any
  error nothing changes.
- *Outbox* (`OutboxWorkers.OutboxSafety`, `OutboxProgress.ReachedInTime`, `BoundAttained`, `ReachedIffUncrowded`,
  `OneWorker.ReachedByWorker`, `OneWorker.InsertedIsReachable`).
- *Cache* (`CategoryCache.CacheIsFresh`, `WritesAreExclusive`, `SomeoneCanMove`, `StampedeBound`,
  `FailsOnlyIfFetchFailed`, `AloneGets`).
- *Round trips and refinements* (`Migrate.SplitScript`, `Money.LoopIsGrouping`, `Money.YenRoundTrip`,
  `OrderRepository.ArgsBindBack`, `Catalog.PagesPartition`), *migration runs* (`MigrationRuns.RunsShape`), *health*
  (`ReplicaHealth.Health.Evaluate`, `TripsAreRare`) and the *unobservable sweep* (`Sessions.SweepsAreUnobservable`).

Four things the code does not do for every input have their exact boundary proved: `yen` of the smallest int
(`Money.YenIsFormattedIff`), a reported lag past 9,223,372,036 seconds (`ReplicaHealth.LagExactIff`), a primary read
followed by a replica read (`OrderReads.PrimaryThenReplica`), and a session id drawn again over an expired
row and then looked up (`Sessions.SweepsAreUnobservable`).

## What is taken as given

- Row locks last to the end of the transaction; locking reads and writes see the latest committed row; plain reads see
  committed rows; the replica applies whole transactions in commit order. A blocked or failing statement does not
  advance, so its transaction waits or is rolled back; a deadlock victim is a rollback.
- The rows of one user's cart are one lockable range, and the shop opens with stock and carts only.
- The row snapshot `CreateOrder` takes from the cart before its transaction begins is an arbitrary input of the machine
  in `Pipeline`, as the code does not tie the two together.
- Clocks, random ids, handler results, fetch results and database failures are parameters, and clock readings are
  not before 1970. A failed commit leaves the transaction rolled back; on the `Primary` object a statement that needs a
  row another transaction holds fails, as after a lock wait timeout.

## Model

| member | source | states |
|---|---|---|
| TwoPhase.ExecValid | internal/inventory/repository.go:29-47 | a statement that runs under its row locks keeps the store explainable: committed tables, undo records and every open transaction's own serial run stay consistent |
| TwoPhase.CommitValid | internal/order/repository.go:119-122 | committing one transaction turns its serial run into the new committed tables and disturbs no other open transaction |
| TwoPhase.RollbackValid | internal/order/repository.go:76-81 | rolling back restores every touched row to its committed value and disturbs no other open transaction |
| TwoPhase.RollbackUndoes | internal/order/repository.go:76-81 | a rollback after one more statement gives the same store as a rollback before it |
| TwoPhase.RollbackOfNothing | internal/order/repository.go:72-81 | beginning a transaction and rolling it back changes nothing |
| TwoPhase.Serializable | internal/order/repository.go:72-122 | the committed rows are those of the committed transactions replayed one at a time in commit order; with none open they are the live tables |
| TwoPhase.SeenIsCommitted | internal/cart/repository.go:80-105 | a plain read on the primary returns committed rows only, mid-transaction writes of others never |
| Orders.RunStock | internal/inventory/repository.go:29-47 | over any statement list that succeeds, a product's stock falls by exactly the quantities reserved |
| Orders.RunKeepsStock | internal/inventory/repository.go:29-47 | stock that is not negative never becomes so, because the decrement is conditional |
| Orders.RunSold | internal/order/repository.go:146-163 | units in order_items grow by exactly the units on the inserted lines |
| Orders.RunPlaced | internal/order/repository.go:85-91 | the orders created in one UTC day, and their amount, grow by exactly the orders inserted with a time in that day |
| Orders.RunSummed | internal/order/repository.go:165-179 | the day's summary row grows by exactly one order and its total per upsert, starting a new row on a new day |
| Orders.OrderCountsOnItsDay | internal/order/repository.go:83-117 | an order raises the summary of the UTC day that holds its creation time, counted in microseconds from 1970, by one order and its total, sets its update time, and leaves every other day's row alone |
| Orders.ProgramBalances | internal/order/repository.go:83-117 | one order's statements reserve what they itemise, and add to the summary what they place |
| Orders.OrderRows | internal/order/repository.go:85-98 | a successful order had an unused id and distinct products, and leaves its head row, one item row per line and no other item |
| Orders.EventRow | internal/order/repository.go:107-114 | a successful order adds exactly one new unprocessed event carrying its id, user and total |
| Orders.OrderTouches | internal/order/repository.go:83-117 | an order changes no row but its own head, items and event, its products' stock, its buyer's cart and its day |
| Pipeline.NextInv | internal/order/repository.go:63-142 | every step of every request, worker, abort and replication keeps the invariant of the running shop |
| Pipeline.SerialEquivalence | internal/order/repository.go:72-122 | for every interleaving and abort the committed tables equal the serial replay in commit order, with every stock check succeeding again |
| Pipeline.LiveStock | internal/inventory/repository.go:33-45 | live stock is committed stock less what open transactions have reserved, and is not negative |
| Pipeline.CommittedStock | internal/order/repository.go:96-103 | in the committed tables stock plus units sold is the opening stock |
| Pipeline.StockConservation | internal/order/repository.go:76-103 | in every reachable state stock + sold + reserved in flight = opening stock, and stock >= 0 |
| Pipeline.StockRowsBalance | internal/inventory/repository.go:33-45 | row by row: in every reachable state a product's stock row holds the opening stock less what is sold and reserved, never below zero; without a row nothing is sold or reserved |
| Pipeline.WorkersHoldEventsAlone | internal/outbox/store.go:44-73 | two workers in progress never hold the same event row |
| SerialRuns.EverySerialRunHappens | internal/order/repository.go:72-122 | conversely, every serial list of jobs whose statements go through is the commit log of a run that ends with no transaction open |
| SerialRuns.ReplicaCatchesUp | internal/dbx/router.go:32-39 | a replica that goes on applying reaches the end of the log, and nothing else moves |
| SerialRuns.AbortGivesBack | internal/order/repository.go:76-81 | an abort at any point of any run gives every locked row its committed value back and touches no other row, job or commit |
| DerivedData.AfterRowwise | internal/order/repository.go:107-114 | after any committed jobs, events and orders correspond one to one with equal user and total, and items belong to orders |
| DerivedData.AfterSummary | internal/order/repository.go:165-179 | after any committed jobs the summary of a UTC day is the count and total of the orders whose creation time lies in that day |
| DerivedData.AfterPrefix | internal/dbx/router.go:32-39 | every prefix of a log that replays replays too, so a replica state is itself a serial run |
| DerivedData.DerivedDataAgrees | internal/order/repository.go:107-117 | on every prefix of the commit log of every run, events match orders and every day's summary is exact |
| DerivedData.ProcessedIffMarked | internal/outbox/store.go:75-82 | a committed event stands as processed if and only if some committed worker marked it after its insert |
| Report.MonthsPartition | internal/report/repository.go:27-28 | every UTC day, before 1970 too, lies in one and only one month's range |
| Report.MonthStartIsCivil | internal/report/repository.go:27-28 | months start where the Gregorian calendar, counted in March years with leap days every 4, not 100, but 400 years, has them start |
| Report.Monthly | internal/report/repository.go:26-50 | returns exactly the table's summary rows of the month's days, oldest first, with their counts, amounts and update times |
| Report.RangeAddsUp | internal/report/repository.go:29-45 | the rows of a range of days add up to the orders created on those days |
| Report.MonthlyAddsUp | internal/report/repository.go:26-50 | on any prefix of the log the monthly report sums to the number and total of the orders whose creation time lies between the month's UTC bounds |
| Database.Primary.Begin | internal/order/repository.go:72-75 | opens a transaction with an unused number unless this call is one that fails; then nothing changes |
| Database.Primary.Exec | internal/inventory/repository.go:29-47 | a statement takes its whole effect under its locks or changes nothing; it faults exactly when this call is one that fails or another transaction holds a row it needs, and is refused exactly when the data do not allow it |
| Database.Primary.Commit | internal/order/repository.go:119-122 | takes effect whole unless this call is one that fails; then the transaction is rolled back |
| Database.Primary.Rollback | internal/order/repository.go:76-81 | restores the before-images; after the transaction has ended it does nothing |
| Cart.LinesListed | internal/cart/repository.go:80-105 | the listed rows are exactly the cart rows with a known product, each product once, by descending update time and then ascending product id |
| Cart.List | internal/cart/repository.go:80-105 | unless its call fails, returns those rows of the committed cart and the sum of quantity times unit price |
| Cart.Add | internal/cart/repository.go:31-46 | rejects exactly the quantities outside 1..99; otherwise the row's quantity is qty if it is new, old + qty up to 99, and 99 beyond, every other row stays, unless a call fails or the cart is locked |
| Cart.Update | internal/cart/repository.go:48-67 | rejects quantities outside 1..99, reports a missing or unchanged row, otherwise sets that row only; fails only when a call fails or the cart is locked |
| Cart.Remove | internal/cart/repository.go:69-76 | removes that product from that cart and nothing else, unless a call fails or the cart is locked, the only error there is; then nothing changes |
| OrderRepository.ArgsBindBack | internal/order/repository.go:150-155 | the flat argument list has four arguments per row and binds back to exactly the cart rows, in order |
| OrderRepository.MarksOf | internal/order/repository.go:153-158 | the joined placeholder text holds four question marks per row, as many as there are arguments |
| OrderRepository.InsertOrderItems | internal/order/repository.go:144-163 | sends one insert carrying exactly the given rows, and makes no call for an empty list |
| OrderRepository.ReserveStock | internal/inventory/repository.go:29-47 | refuses a quantity that is not positive, reports insufficient stock only when the row does not cover it, faults only when a call fails or the row is locked, otherwise decrements |
| OrderRepository.SendOrder | internal/order/repository.go:83-117 | success means the whole program ran and every line was covered beforehand; each error names its cause: an uncovered line, a quantity that is not positive, or a failing call or locked row |
| OrderRepository.OrderKeepsSound | internal/order/repository.go:83-117 | an order keeps ids unused above the counters, summary rows well-formed and cart quantities in 1..99 |
| OrderRepository.CartAfterOrder | internal/cart/repository.go:107-115 | an order empties its user's cart and leaves every other cart as it was |
| OrderRepository.PlaceOrder | internal/order/repository.go:72-122 | either one committed log entry with the whole order, or the store exactly as before the call, with the error naming its cause |
| OrderRepository.CreateOrder | internal/order/repository.go:61-142 | when no call fails and no other transaction holds a row of the order, and so when run alone, it succeeds if and only if the cart is non-empty and every line is covered; any error leaves the store unchanged; the returned order carries the cart lines and total |
| OrderRepository.FindOrder | internal/order/repository.go:181-218 | reads the head from one side and the items, by ascending product id, from the other |
| OrderReads.OrderStands | internal/order/repository.go:85-106 | once committed, an order's head and items stay exactly as written on every later state |
| OrderReads.OrderFromJob | internal/order/repository.go:85-91 | every order row comes from a committed order |
| OrderReads.OrderAbsent | internal/order/repository.go:85-106 | before its commit neither the head nor any item of an order is visible |
| OrderReads.ItemsOfStanding | internal/order/repository.go:197-213 | the items read are a product-sorted permutation of the order's lines with the same total |
| OrderReads.FindExact | internal/order/repository.go:183-218 | for any two log prefixes: not found, whole, or head without items, with the exact condition for each |
| OrderReads.RunsGrow | internal/dbx/router.go:32-39 | the log only grows, and the replica never steps back or overtakes the primary |
| OrderReads.UntornReads | internal/order/repository.go:183-218 | unless head goes to the primary and items to the replica, the answer is not-found or one committed order in full, at any lag |
| OrderReads.PrimaryThenReplica | internal/order/repository.go:187-201 | for the remaining pair the answer is whole if and only if the replica has applied the order; otherwise it is the head with no item |
| OrderReads.ReadYourWrites | internal/transport/order_handler.go:39-49 | after the commit, with both routing decisions before the deadline or while the replica is down, the order comes back whole at any lag |
| Routing.WindowForces | internal/dbx/router.go:50-70 | a positive window sends reads to the primary until it has passed; any other leaves the context's deadline as it was |
| TornRead.TornReadReachable | internal/order/repository.go:187-201 | from any moment without open transactions, every order the tables let through leads to a run in which its buyer, reading once inside the window and once after it, gets the head without items |
| TornRead.SomeOrderGoesThrough | internal/order/repository.go:83-117 | such an order exists |
| ReplicaHealth.AsInt64 | internal/dbx/health.go:161-181 | exactly the digit strings parse, to their value wrapped to 64 bits |
| ReplicaHealth.CheckLag | internal/dbx/health.go:100-147 | fails exactly when the status is unreadable or a replica thread does not say Yes; seconds that cannot be read, NULL or not, count as no lag |
| ReplicaHealth.LagExactIff | internal/dbx/health.go:142-146 | the lag in nanoseconds is right if and only if the seconds are at most 9,223,372,036 |
| ReplicaHealth.WrappedLagLooksHealthy | internal/dbx/health.go:146 | one second more reads as a negative lag |
| ReplicaHealth.ReplicaState.Trip | internal/dbx/replica_state.go:18 | marks the replica down |
| ReplicaHealth.ReplicaState.Reset | internal/dbx/replica_state.go:21 | marks the replica up |
| ReplicaHealth.SuffixIsThree | internal/dbx/health.go:72-97 | the last three checks were bad exactly when the run of bad checks at the end is three or longer |
| ReplicaHealth.Health.Evaluate | internal/dbx/health.go:67-98 | after any checks the counter is the length of the bad suffix and the flag is set exactly when the last three checks failed or lagged above the threshold; counts how often it goes up to down |
| ReplicaHealth.TripsAreRare | internal/dbx/health.go:67-98 | over n checks the replica goes from up to down at most (n + 1) / 4 times |
| ReplicaHealth.UnforcedReads | internal/dbx/router.go:34-39 | a read outside the window goes to the primary exactly when the last three checks were bad |
| OutboxWorkers.NextInv | internal/outbox/worker.go:65-96 | every claim, handler call, commit, rollback and insert keeps the bookkeeping of claims, accepted calls and marks |
| OutboxWorkers.PendingOk | internal/outbox/store.go:44-73 | what a tick claims comes from the visible, unprocessed and unlocked rows, each at most once |
| OutboxWorkers.PendingSize | internal/outbox/worker.go:28-45 | a tick claims a full batch, 50 by default, or all there is |
| OutboxWorkers.VisibleIffCommitted | internal/outbox/store.go:28-39 | in every run an event is visible if and only if its insert was committed after it was begun and before it was given up |
| OutboxWorkers.OutboxSafety | internal/outbox/worker.go:65-96 | no two live ticks hold an event; at most one committed mark, earned by an accepting handler call of the same tick and final; successful calls number at most 1 + rollbacks |
| OutboxProgress.Store.HandleAll | internal/outbox/worker.go:85-93 | marks exactly the events the handler accepts, and stops early only when a mark fails |
| OutboxProgress.Store.Tick | internal/outbox/worker.go:65-96 | succeeds exactly when none of its calls fails; then exactly the claimed events the handler accepts are processed, otherwise none |
| OutboxProgress.PassedOver | internal/outbox/store.go:44-73 | an available event that is not claimed has a full batch of smaller ids claimed before it |
| OutboxProgress.ReachedInTime | internal/outbox/worker.go:77-95 | with at most f < batch unprocessed failing events ahead, an event with r good ones ahead is processed within r / (batch - f) + 1 committed ticks, whatever larger ids arrive |
| OutboxProgress.BoundAttained | internal/outbox/worker.go:77-95 | the bound is sharp: with r good and f failing unprocessed events ahead, counted as in ReachedInTime, the event is still waiting after k ticks whenever k * (batch - f) <= r |
| OutboxProgress.Starved | internal/outbox/store.go:48-53 | with a batch of failing events of smaller id, an event is never processed, whatever arrives |
| OutboxProgress.ReachedIffUncrowded | internal/outbox/worker.go:65-96 | for any queue and whatever larger ids keep arriving, a good event is ever processed if and only if fewer than a batch of unprocessed failing events have smaller ids |
| OneWorker.WorkerFollowsRounds | internal/outbox/worker.go:65-96 | one worker, whose marks may fail and whose ticks may roll back, with inserts starting, committing and failing at any point, goes through exactly one round per committed tick |
| OneWorker.ReachedByWorker | internal/outbox/worker.go:77-95 | so the progress bound, counted in committed ticks, holds for every run of one worker in the machine of `OutboxWorkers` |
| OneWorker.ReachedAfterInsert | internal/outbox/worker.go:77-95 | the same for an event whose insert was committed in the run itself |
| OneWorker.ClaimTakes | internal/outbox/store.go:48-53 | a claim takes an event if and only if it is visible, unprocessed, held by nobody and preceded by fewer than a batch of free ones |
| OneWorker.TickGoesThrough | internal/outbox/worker.go:65-96 | from any state between ticks a worker whose calls do not fail gets a further tick committed |
| OneWorker.InsertedIsReachable | internal/outbox/worker.go:65-96 | every good event whose insert was committed, with fewer than a batch of failing ones before it, can be processed |
| CategoryCache.NextInv | internal/catalog/cache.go:35-60 | every step of any number of callers keeps lock state, fields, fetch history and callers' results consistent |
| CategoryCache.CacheIsFresh | internal/catalog/cache.go:35-60 | a caller that started at s returns the result of one fetch whose caller started after s - ttl |
| CategoryCache.FailsOnlyIfFetchFailed | internal/catalog/cache.go:53-56 | in every run a call fails only because its own fetch failed |
| CategoryCache.ReturnsWhatItFetched | internal/catalog/cache.go:53-59 | in every run a caller whose own fetch brought a list returns that list |
| CategoryCache.LiveCacheIsRead | internal/catalog/cache.go:38-43 | while nobody writes, a caller that comes to a live cache returns its contents in four steps, whoever else is reading, without the write lock |
| CategoryCache.AloneGets | internal/catalog/cache.go:35-60 | with nobody else about, a call returns the live contents, or asks the fetch once and returns and keeps what it brings for one ttl, or fails with it and keeps nothing |
| CategoryCache.WritesAreExclusive | internal/catalog/cache.go:37-59 | a write to items or expiresAt never overlaps another reader or writer |
| CategoryCache.SomeoneCanMove | internal/catalog/cache.go:35-60 | while a caller has not returned some caller can move, even when waiting writers bar new readers |
| CategoryCache.MovesAreProgress | internal/catalog/cache.go:35-60 | every move brings its caller strictly closer to returning and sets nobody else back |
| CategoryCache.SpacedCount | internal/catalog/cache.go:45-57 | fetches spaced a ttl apart can start only so often in an interval |
| CategoryCache.StampedeBound | internal/catalog/cache.go:36-59 | successful fetches start at least a ttl apart, so callers of an interval of length L cause at most L / ttl + 1 of them |
| CategoryCache.ExpiryIncreases | internal/catalog/cache.go:57 | the expiry never moves back, and every store of a fetch moves it strictly forward |
| CacheObject.Cache.Get | internal/catalog/cache.go:35-60 | a live value is copied out, a fetch is copied in and out, a failed fetch changes nothing; no slice is shared |
| CacheObject.WritesAreHarmless | internal/catalog/cache.go:35-60 | over any number of calls, writing to any returned or fetched slice at any time changes no later result |
| Migrate.SplitStatements | internal/migrate/migrate.go:117-138 | drops full-line comments, cuts at semicolons, trims, drops empty pieces |
| Migrate.CommentIsDashes | internal/migrate/migrate.go:122-125 | a line is dropped exactly when it is white space, two dashes and anything |
| Text.TrimCuts | internal/migrate/migrate.go:122 | trimming cuts white space off both ends and leaves none there |
| Migrate.SplitScript | internal/migrate/migrate.go:117-138 | statements joined by semicolon and newline, with full-line comments anywhere at line boundaries, split back into exactly those statements |
| Migrate.SplitLosesNothing | internal/migrate/migrate.go:117-138 | for any script the non-space characters of the output are those of the kept lines without semicolons, in order |
| MigrationRuns.Migrator.ExecScript | internal/migrate/migrate.go:105-115 | executes a script's statements in order up to the first failure |
| MigrationRuns.Migrator.RunFile | internal/migrate/migrate.go:34-47 | a file is recorded only after all its statements ran; a failure leaves a prefix of them executed |
| MigrationRuns.ListMigrationFiles | internal/migrate/migrate.go:63-81 | exactly the plain files whose names end in .up.sql, ascending by the first character in which names differ |
| MigrationRuns.DirectoryDistinct | internal/migrate/migrate.go:63-81 | no file is listed twice |
| MigrationRuns.Migrator.Apply | internal/migrate/migrate.go:18-50 | one run over a directory, from preparing the tracking table on: skips what was recorded at its start, completes the other files in sorted order, stops at the first failure |
| MigrationRuns.ApplyShape | internal/migrate/migrate.go:20-50 | one run, however it stops, keeps the shape of records and log |
| MigrationRuns.RunsShape | internal/migrate/migrate.go:18-50 | after any runs over a directory the recorded names are a prefix of its ascending file list, and the log is file by file some broken-off attempts and one complete execution before the record |
| MigrationRuns.SecondRunDoesNothing | internal/migrate/migrate.go:20-50 | after a run without error everything is recorded and a further run executes no statement |
| MigrationRuns.RunsCatchUp | internal/migrate/migrate.go:18-50 | however earlier runs broke off, a run in which enough calls succeed records every script |
| MigrationRuns.RunAgain | internal/migrate/migrate.go:18-50 | a migrator started again and again is in the state the run theorems speak of |
| Money.Yen | internal/render/render.go:69-93 | the sign, the yen mark and the digits with the comma loop's grouping |
| Money.LoopIsGrouping | internal/render/render.go:79-90 | the left-to-right comma loop equals the recursive grouping by thousands with three-digit padding |
| Money.GroupedLength | internal/render/render.go:79-90 | d digits take d + (d - 1) / 3 characters |
| Money.CommaEveryThree | internal/render/render.go:79-90 | counted from the right every fourth character is a comma and all others are digits |
| Money.YenStarts | internal/render/render.go:69-78 | the text starts with the yen sign, a negative amount with a minus sign before it |
| Money.YenIsFormattedIff | internal/render/render.go:69-93 | the text is the intended one for every int except the smallest |
| Money.YenRoundTrip | internal/render/render.go:69-93 | dropping mark and commas and reading the digits gives the value back |
| Catalog.ListProducts | internal/catalog/repository.go:26-61 | a page is the window at its offset, and hasNext holds exactly when rows remain after it |
| Catalog.FollowRest | internal/catalog/repository.go:26-61 | a page and the pages reached by hasNext hold everything from its offset on |
| Catalog.PagesPartition | internal/catalog/repository.go:26-61 | following hasNext from page 1 ends after max(1, ceil(n / perPage)) pages, 20 rows each by default, all full but the last, which together list exactly the active products by descending update time and id |
| Sessions.SessionStore.Create | internal/auth/sessionstore.go:24-45 | inserts a session valid for ttl, unless the id is taken |
| Sessions.SessionStore.Find | internal/auth/sessionstore.go:49-66 | returns the session unless it is missing or expired |
| Sessions.SessionStore.Delete | internal/auth/sessionstore.go:69-75 | removes exactly that session |
| Sessions.SessionStore.DeleteExpired | internal/auth/sessionstore.go:79-90 | removes exactly the expired sessions and counts them |
| Sessions.SameAnswers | internal/auth/sessionstore.go:49-90 | a table that lacks expired rows, or holds later sessions in their place that nobody looks up, answers the rest of a run like the full one |
| Sessions.SweepsAreUnobservable | internal/auth/sessionstore.go:24-90 | for every run under a clock that does not go back: sweeps put in anywhere, none past the clock, change no answer if and only if no create over an expired row is followed by a find of that id before the new session expires and before a delete of it |
| Sessions.OneSweepShows | internal/auth/sessionstore.go:24-90 | in every other run one sweep right before such a create changes an answer |
| Sessions.FreshIdsReviveNone | internal/auth/sessionstore.go:24-45 | a run that never draws an id twice meets the condition |

## Left out

- One order per cart under racing submits, and carts losing no addition: the cart is listed before the transaction begins (internal/order/repository.go:64-72), so the code does not promise either.
- Deadlock freedom between orders: rows are reserved in cart order; a deadlock victim is a rollback of the model.
- SQL text, the driver and isolation levels: statements are their effects on keyed rows; finer gap and index locks are not modelled.
- Order status, payload text, product names, later price changes and the updated_at of stock rows: no property depends on them.
- Column overflow and the range of a total: an out-of-range value is one more failing statement.
- ReplicaHealth.Health.Evaluate: takes the check's outcome as input; reading the status row is `CheckLag`.
- Catalog.ListProducts: multiplication overflow of a huge page number is not modelled, and paging across a change of page size is not claimed.
- CategoryCache.StampedeBound: only successful fetches are counted, since failed ones are not coalesced.
- Migrate.SplitScript: statements contain no semicolon and no comment line; splitting inside string literals and comments after a semicolon on the same line are not claimed.
- MigrationRuns.Migrator.Apply: the directory does not change during a run, names that differ in case only are not told apart by the tracking table's collation and are not modelled, and concurrent runs are not claimed.
- OutboxProgress.ReachedInTime: one worker, with nothing locked by others; several workers are covered for safety only.
- The outbox machines keep event ids only; in `Pipeline` a worker is a transaction that locks and marks event rows.
- OrderRepository.CreateOrder: proved on the `Primary` object, one call at a time; in `Pipeline` the same statement list is interleaved.
- HTTP handlers, templates, middleware, configuration, password hashing, tokens, CSRF, degraded mode, pool settings, `Suggest`, `FindProduct`, `History`: wiring or single-branch code.
