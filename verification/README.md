# Gai: models and proofs

A Dafny model of the parts of the Gai web framework that behave as state machines, protocols
or transformations, with proofs about every run, every interleaving or every input. Code that
updates objects or works in loops is modelled by classes and methods, each proved against a
specification function; the properties are lemmas about those functions. Where a promise does
not hold of the code, a lemma shows an input and another gives the exact condition under which
it does.

| files | component |
|---|---|
| `Migrations`, `MigrationEffects`, `Sorting` | the migration ledger as a stack of applied Ups |
| `Transactions` | nested transactions compiled to savepoints |
| `Once` | Once as double-checked locking over an expiring lock |
| `Paths`, `RouteTable`, `RouteAnswers`, `RouteUrls`, `Router` | the route trie, its plain-map meaning, reverse URLs, and the linked nodes |
| `RateLimit`, `RateLaw` | the token bucket with eviction |
| `JobQueue`, `JobEffects`, `Backoff`, `RedisQueue` | job lifecycles in memory and in Redis |
| `TokenRotation`, `TokenEffects` | refresh-token rotation over a blacklist that forgets |
| `HandlerChain`, `HandlerWork` | the re-entrant handler loop |
| `Conditions`, `QueryBuilder`, `SoftDelete`, `Pagination` | the query builder: tokens, placeholders, soft deletion, pages |
| `EagerLoading`, `RelationMeaning` | batched relation loading |
| `Strings`, `Numerals`, `CronLoops`, `Cron`, `CronRunner` | cron expressions and the loop that runs them |
| `GeneratedRoutes`, `RouteRegistry` | the generated-routes file |
| `Wrappers`, `Sequences`, `GoTypes`, `Powers` | options, facts about sequences, 64-bit integers, powers of two |

`dafny verify dfyconfig.toml` checks everything.

Some results differ from what the documentation suggests; the models follow the code:

- Reset never returns nil if a recorded migration is no longer registered, and a rollback around a missing one corrupts the schema (`ResetReturnsNilIff`, `OrderlyIff`).
- A default query with OrWhere, or with an OR inside a raw clause, can return soft-deleted rows (`HidesDeletedIff`, `OrWhereLeaks`, `RawOrLeaks`).
- With a limit or an offset the default query is not the live part of WithTrashed (`SplitsIff`).
- The listed operator "in" is refused by every database, and IS with a value by all but SQLite (`LowerCaseInRefused`, `ReadingRecoversClauses`).
- Count and Paginate fail on ordered or locking queries in PostgreSQL, and count the first group of grouped ones (`CountsRowsIff`).
- Greedy lookup misses a matching pattern exactly if some node mixes kinds of children (`CompleteIff`).
- A revoked token can parse once more while it expires, and a second usable refresh token of its family comes of it (`RevokedParsesIff`, `ExchangedOnceIff`, `OneLiveIff`).
- belongsToMany treats an unlinked model differently alone and in a batch (`BatchIsNaiveIff`).
- Two Redis workers can deliver one delayed job twice (`NeverTwiceIff`).
- Increment by the smallest 64-bit integer subtracts the wrong number (`IncrementAdds`).
- A job with more than 35 tries gets a negative retry delay (`DelaysInRangeIff`).
- A page number beyond the integer range shows the first page (`OverflowShowsTheFirstPage`).
- Extreme cron numbers overrun their loop counters: numbers out of range are stored, a number that is not denoted matches, or parsing does not end (`OverrunStoresNonDays`, `OverrunMatchesWrongly`, `AcceptedIff`).

Clock readings, results of handlers and callbacks, database contents, failures of the database
and of locks, random identifiers and the order of map iteration are parameters or steps chosen
from outside, so the results hold for all of them.

## Model

| member | source | states |
|---|---|---|
| `Migrations.LedgerIsExecutionOrder` | database/migration/migrator.go:39-130 | Over every run of Add, Migrate and Rollback, including runs cut short by a failing script or an unreachable database, the ledger sorted by (batch, name) lists exactly the Ups now in force in the order in which they were executed. |
| `Migrations.RunAgrees` | database/migration/migrator.go:39-130 | The invariant behind it: after every run the ledger has one row per Up in force, in the same order, with distinct names and batches that never fall. |
| `Migrations.MigrateAgrees` | database/migration/migrator.go:40-80 | One Migrate keeps that invariant and leaves the registered migrations sorted by name. |
| `Migrations.RollbackAgrees` | database/migration/migrator.go:83-130 | One Rollback keeps it whether or not every name is found in code; it invents no row, and rows of names not in code stay. |
| `Migrations.RollbackNames` | database/migration/migrator.go:88-100 | The names Rollback reads for the last batch are exactly those of the youngest rows, oldest first. |
| `Migrations.RunExplained` | database/migration/migrator.go:39-130 | If what is found in code is what was executed, its Down inverts its Up and each rollback is orderly (no row missing from code is younger than one that is undone), then after every run the schema is what the Ups in force make of the original one. |
| `Migrations.OrderlyExplained` | database/migration/migrator.go:107-127 | An orderly rollback, with rows missing from code or not and however long the database lasts, leaves the schema explained by the remaining ledger. |
| `Migrations.OrderlyIff` | database/migration/migrator.go:107-127 | For migrations that record their own names, a rollback leaves the schema explained if and only if it is orderly: the condition on rows, registrations and the life of the database is exact. |
| `Migrations.RollbackPops` | database/migration/migrator.go:83-130 | Such a Rollback pops exactly the last batch off the stack of applied Ups, or as much of it as the database survives for, and succeeds exactly if it survives for all of it. |
| `Migrations.ResetRestores` | database/migration/migrator.go:161-178 | When every recorded migration is registered and inverted by its Down, Reset restores the original schema and empties the ledger; it fails exactly if the database does not survive for one Down per row. |
| `Migrations.ResetAfterAnyRun` | database/migration/migrator.go:161-178 | So Reset after any run of that kind brings back the schema the run started from. |
| `Migrations.UnregisteredNeverDone` | database/migration/migrator.go:110-114 | With a recorded name missing from code Reset never returns nil, however many rounds its loop makes: it ends with an error or not at all, and the row stays. |
| `Migrations.ResetReturnsNilIff` | database/migration/migrator.go:161-178 | Where Downs invert the Ups that were executed, Reset returns nil, and has then restored the schema, if and only if every recorded name is registered and the database lasts for one Down per row. |
| `Migrations.ResetWithinIsReset` | database/migration/migrator.go:166-177 | With every recorded name registered one round per row is enough for the loop to end. |
| `Migrations.SkippedDownCorrupts` | database/migration/migrator.go:108-114 | For instance, after a run in which a new release drops the younger of two migrations of a batch, Rollback undoes the older one around it and the schema is no longer the one the ledger stands for. |
| `Migrations.FreshIsCanonical` | database/migration/migrator.go:180-186 | Whatever the history, a successful Fresh gives the schema that the registered Ups, in name order, make of the original one, with all rows in a single batch 1. |
| `MigrationEffects.MigrateRunsPending` | database/migration/migrator.go:40-80 | On any ledger and any distinct registrations Migrate runs exactly the registered migrations that are not recorded, in name order, up to the first that fails or finds the database gone; the old rows stay in front, each new row has a batch one more than the largest before, and the schema is what these Ups make of it. It returns nil if and only if all of them work one after the other and the database lasts; then every registered name is recorded. |
| `MigrationEffects.RollbackUndoesLastBatch` | database/migration/migrator.go:83-130 | Rollback undoes exactly the migrations of the last batch that code has under their names (the last registration counts), from the last name to the first, up to the first Down that fails; their rows go and all others stay; nil exactly if none fails. |
| `MigrationEffects.FreshSucceedsIff` | database/migration/migrator.go:180-186 | Fresh returns nil if and only if the database lasts for a Down of every row and an Up of every registered migration, and these Ups work one after the other on the original schema. |
| `Migrations.Migrator.constructor` | database/migration/migrator.go:30-32 | A migrator can be opened on any database, with the ledger it has; nothing is registered yet. |
| `Migrations.Migrator.ExecSQL` | database/migration/migrator.go:188-204 | A script runs entirely or not at all. |
| `Migrations.Migrator.RunUp` | database/migration/migrator.go:66-75 | An Up that succeeds is recorded with its batch; one that fails changes nothing. |
| `Migrations.Migrator.RunDown` | database/migration/migrator.go:116-125 | A Down that succeeds removes its row; one that fails changes nothing. |
| `Migrations.Migrator.Migrate` | database/migration/migrator.go:40-80 | The loop refines the function whose runs the invariants above are about, and reports failure exactly when it stops early. |
| `Migrations.Migrator.Rollback` | database/migration/migrator.go:83-130 | Likewise for the loop over the names of the last batch, from the last to the first. |
| `Migrations.Migrator.Reset` | database/migration/migrator.go:161-178 | The loop, followed for any number of rounds on any ledger: it has returned nil, or an error, or goes on. |
| `Migrations.Migrator.Fresh` | database/migration/migrator.go:180-186 | Reset, then Migrate if it returned nil; otherwise its error. |
| `Sorting.SortSorts` | database/migration/migrator.go:54-56 | Sorting by a strict total order yields an ordered list. |
| `Sorting.SortPermutes` | database/migration/migrator.go:54-56 | Sorting neither loses nor adds an element. |
| `Transactions.DB.Transaction` | database/orm/db.go:89-133 | For every tree of nested calls, with child errors swallowed or propagated at will: the result is nil exactly if the callback returns nil, and the surviving store gains exactly the writes all of whose enclosing calls returned nil. |
| `Transactions.DB.InSavepoint` | database/orm/db.go:94-107 | A nested call rolls back to, or releases, its own savepoint although failed children have left theirs on the stack; savepoints left behind carry numbers higher than any before. |
| `Transactions.DB.Invoke` | database/orm/db.go:99-131 | Running a callback with the open transaction appends exactly its surviving writes, and only grows the savepoint stack with newer numbers. |
| `Transactions.DB.Exec` | database/orm/db.go:94-106 | A statement either applies or, on an unknown savepoint, fails and changes nothing. |
| `Transactions.SurvivorsEnclose` | database/orm/db.go:99-106 | A nil result around a group of writes changes nothing; an error discards all of them. |
| `Transactions.ExecutionAgrees` | database/orm/db.go:89-133 | Executed step by step, with a stack of waiting calls, a callback ends at a return of exactly the result Transaction reports, swallowed errors of nested calls included, having added exactly its surviving writes. |
| `Transactions.YoungestBelowLeftovers` | database/orm/db.go:95-106 | Below any number of leftover savepoints with higher numbers, the call still finds its own. |
| `Transactions.FreshNumbersNeeded` | database/orm/db.go:95-102 | Unique numbers are needed: of two nested failing calls the outer write is undone if and only if their savepoint numbers differ. |
| `Once.MutualExclusion` | cache/cache.go:111-135 | Under every interleaving of any number of callers whose locks do not expire under them, two runs of fn for one key never overlap. |
| `Once.NoStartWhileMarked` | cache/cache.go:111-135 | After a successful fn has set its marker, no fn for that key starts before the marker has expired, and none ever if it does not expire. |
| `Once.MarkerPersists` | cache/cache.go:134-134 | A marker stays as it was written until it expires. |
| `Once.ReleaseRemovesOwnLock` | lock/lock.go:41-45 | Although release deletes unconditionally, it only ever removes the lock of the caller that releases; every other holder keeps its own. |
| `Once.RunSafe` | cache/cache.go:111-135 | The invariant: every holder owns the lock entry with its own expiry, no two holders share a key, and a caller past its second check has no live marker. |
| `Once.ExpiredLockAllowsOverlap` | lock/lock.go:37-40 | In every state where a running holder's lock has expired, a caller of the same key that is about to lock can start fn as well. |
| `Once.RunsAgainIff` | cache/cache.go:111-135 | After a successful fn has set its marker and released the lock, the next caller, d later, runs fn if and only if 0 < ttl < d. |
| `Once.LockedAgainIff` | lock/lock.go:30-46 | A lock that is not released can be taken again d later if and only if d is at least its lifetime, which is ten seconds for a non-positive ttl. |
| `Once.Manager.AcquireLock` | lock/lock.go:30-46 | Takes the lock, with ten seconds for a non-positive lifetime, unless a live one is held. |
| `Once.Manager.Once` | cache/cache.go:111-135 | A call performs exactly the steps of a caller of the state machine, whichever of its backend calls fail; it runs fn exactly if the key is unmarked, the lock is free and the key is still unmarked, and returns an error exactly if a call it makes, or fn, fails. |
| `RouteTable.LookupIsGreedy` | router/router.go:254-323 | After any sequence of registrations trie lookup equals a greedy walk (static, then parameter, then wildcard, no backtracking) over a plain map from normalised pattern to method table, in which the last registration wins. |
| `RouteTable.BuildSpec` | router/router.go:254-284 | The trie has a node exactly where some pattern goes through; its table is the map's, and its parameter name is the first one registered there. |
| `RouteTable.FoundIsSound` | router/router.go:286-323 | A returned route was registered, its pattern matches the path, and it serves the method, with HEAD served by GET. |
| `RouteAnswers.AnswerIs` | router/router.go:286-323 | At the node its walk ends at, for every method and also where nodes mix kinds of children, lookup finds exactly the route registered last for the method (GET for an unregistered HEAD), with the segments at the parameter positions, under the names of the trie, as parameters; it names exactly the methods served there if the method is not, and finds nothing if there are none or no such node. |
| `RouteTable.UnambiguousIsComplete` | router/router.go:286-323 | If no node mixes static, parameter and wildcard children, every path some pattern matches is resolved at that pattern: found exactly if the method (or GET for HEAD) is registered there, and otherwise the allowed list is exactly the pattern's methods (sections 9.3.2 and 15.5.6 of RFC 9110). |
| `RouteTable.CompleteIff` | router/router.go:286-323 | Every path, made of non-empty segments without a slash, is resolved at every pattern that matches it if and only if no node mixes static, parameter and wildcard children. |
| `RouteTable.GreedyMisses` | router/router.go:289-305 | For instance, next to /a/b the pattern /:x does not serve the path /a. |
| `RouteUrls.UrlSplits` | router/router.go:166-185 | For non-empty slash-free values, splitting the built URL gives the pattern with its parameters replaced. |
| `RouteUrls.UrlSegments` | router/router.go:166-185 | For any parameters without slashes, missing and empty ones included, the built URL splits into the segments that have something to show for: a parameter that is missing or empty leaves no segment. |
| `RouteUrls.UrlRoundTrip` | router/router.go:166-185 | In an unambiguous trie, for a route registered last for its method and pattern whose parameters carry its own names, looking up its URL returns the route and the parameters. |
| `RouteUrls.UrlRoundTripIff` | router/router.go:166-185 | In an unambiguous trie, for a route registered last for its method and pattern and with distinct parameter names, every URL built for it comes back to it with the same parameters if and only if nothing follows a wildcard and the route first named its parameters. |
| `RouteUrls.SegmentAfterWildcard` | router/router.go:257-264 | For instance, a segment after a wildcard is kept by the URL and swallowed by the trie. |
| `Paths.SplitPath` | router/route.go:33-48 | The one-pass split yields the non-empty parts between slashes. |
| `Paths.SegmentsOfUrl` | router/route.go:33-48 | Splitting undoes joining non-empty slash-free parts under a leading slash. |
| `Router.Node.GetChild` | router/router.go:256-278 | Picks the child for a segment: wildcard, parameter or static. |
| `Router.Node.SetChild` | router/router.go:256-278 | Hangs a child below the node and leaves the other children alone; a parameter child names the parameter. |
| `Router.Router.constructor` | router/router.go:38-43 | An empty router represents the empty table. |
| `Router.Router.NewChild` | router/router.go:257-278 | Creating a node grows the represented trie by one edge and keeps the linked structure consistent. |
| `Router.Router.EnsureChild` | router/router.go:256-278 | One round of the insertion loop: an existing child is reused, a missing one is created. |
| `Router.Router.Insert` | router/router.go:254-284 | In-place insertion into the linked nodes refines insertion into the trie. |
| `Router.Router.PutRoute` | router/router.go:280-284 | Recording a route changes the method table of one node. |
| `Router.Router.AddRoute` | router/router.go:236-248 | The router represents the trie of all registrations so far, in order. |
| `Router.Router.Lookup` | router/router.go:286-323 | Lookup over the linked nodes answers what the greedy walk over the registrations answers; a 405 lists each allowed method once. |
| `Router.Router.Listed` | router/router.go:318-322 | The list has the set's elements, each once. |
| `Router.Router.URL` | router/router.go:166-185 | The path of the named route with its parameters filled in, or "" for an unknown name. |
| `RateLimit.RateBound` | middleware/ratelimit.go:35-90 | For every history and every interval of length T, the requests of one client admitted in it are at most limit plus what T earns, evictions included. |
| `RateLimit.GainIsShare` | middleware/ratelimit.go:35-35 | What a span T earns is limit * T / window. |
| `RateLimit.RunSound` | middleware/ratelimit.go:69-86 | On a monotone clock tokens stay in [0, limit]. |
| `RateLimit.IdleIsFull` | middleware/ratelimit.go:50-51 | A visitor idle for more than two windows would be refilled to the limit. |
| `RateLimit.EvictionIsUnobservable` | middleware/ratelimit.go:40-57 | A limiter that evicts gives the same verdict on every request as one that never does. |
| `RateLimit.SpendingBound` | middleware/ratelimit.go:59-90 | Admissions are paid for by the credit at the start and the time passed. |
| `RateLaw.AdmittedIff` | middleware/ratelimit.go:59-90 | The law both ways: after any run, evictions included, a request is admitted if and only if, from each of the client's requests on, this one included, limit tokens and what the credited time earns pay for the requests admitted since and for this one; the time between measuring and storing a visit is not credited. |
| `RateLaw.FirstIsAdmitted` | middleware/ratelimit.go:63-76 | With a limit of at least 1 a client's first request is admitted. |
| `RateLaw.PatientIsAdmitted` | middleware/ratelimit.go:63-90 | A client whose every wait earns a token is always admitted. |
| `RateLaw.WaitingIsPatient` | middleware/ratelimit.go:35-35 | A wait of window / limit earns a token. |
| `RateLimit.Limiter.Allow` | middleware/ratelimit.go:59-87 | The handler decides and updates the bucket as the model's request step does, with its three separate clock readings. |
| `RateLimit.Limiter.Cleanup` | middleware/ratelimit.go:47-54 | One round of cleanup looks at every visitor once and amounts to evictions; exactly the visitors idle at their reading are gone, and the others are as they were. |
| `JobQueue.EachJobInOnePlace` | queue/queue.go:113-187 | Over every run each accepted job is in exactly one place: channel, the popping loop, a worker, succeeded, failed, or one of the exits no handler, retry refused as full, cancelled while waiting; no other job is anywhere. |
| `JobQueue.TriesAreRespected` | queue/queue.go:145-187 | At most `concurrency` handlers run at once; a handler has run at most MaxTries times, exactly MaxTries if the job is in the failed list, and fewer while it is pending or refused. |
| `JobQueue.RunAccounted` | queue/queue.go:113-187 | The invariant behind it: recorded attempts are the calls made, in every place a job can be. |
| `JobQueue.NothingEarly` | queue/queue.go:224-242 | Over every run no job, retried or delayed, is handed to a worker before its recorded time. |
| `JobQueue.RetryWaits` | queue/queue.go:171-176 | The recorded time of a retry is the failure plus the backoff of its attempts, which with at most 35 tries is one to thirty seconds later. |
| `JobEffects.FailedCall` | queue/queue.go:167-187 | After a failed call the job is at the end of the channel, due after its backoff, exactly if its attempts are below its tries and there is room; refused exactly if they are below and there is no room; in the failed list exactly if no tries are left. Nothing else changes. |
| `JobEffects.OutForAReason` | queue/queue.go:113-187 | Over every run a job is out of the queue in one of five ways exactly if some step gave the reason: its handler succeeded, its last try failed, it had tries left and the channel was full, it had no handler, or the worker was cancelled while it was waiting. |
| `JobEffects.FirstInFirstOut` | queue/queue.go:214-242 | Over every run jobs are taken in the order in which they were put into the channel, retries included, none skipped. |
| `JobEffects.FirstIsDelivered` | queue/queue.go:113-143 | A popping loop with a free slot hands the first job of the channel to its handler after exactly the time it is not yet due. |
| `JobEffects.UnhandledJob` | queue/queue.go:145-152 | A job without a handler is not called and not kept. |
| `JobEffects.RegisteredIsCalled` | queue/queue.go:90-94 | A job is called once a handler is registered under its name. |
| `JobEffects.CancelledStops` | queue/queue.go:224-242 | A cancelled loop stops, and the job it was waiting for, if any, is dropped. |
| `JobQueue.Memory.constructor` | queue/queue.go:207-212 | A non-positive size means 64. |
| `JobQueue.Memory.Push` | queue/queue.go:214-222 | A job is appended unless the channel is full. |
| `JobQueue.Memory.Process` | queue/queue.go:145-187 | process does to the queue what the worker's steps of the state machine do. |
| `Backoff.DelayExact` | queue/queue.go:61-67 | In 64-bit arithmetic the delay after failure n is 2^(n-1) seconds up to n = 5 and 30 seconds up to n = 34. |
| `Backoff.DelayNonDecreasing` | queue/queue.go:61-67 | Delays never shrink from one failure to the next within that range. |
| `Backoff.DelaysInRangeIff` | queue/queue.go:61-67 | All retry delays of a job lie within 1..30 s if and only if it is allowed at most 35 tries; the 35th failure overflows. |
| `RedisQueue.NothingLostNothingEarly` | queue/redis.go:34-90 | Under any interleaving of the read-due, move and pop steps of any number of workers, no pushed job is absent from delayed set, ready list and deliveries, and none becomes ready before its whole-second availability time. |
| `RedisQueue.OneWorkerDeliversOnce` | queue/redis.go:50-90 | With one worker each job is delivered exactly once. |
| `RedisQueue.NeverTwiceIff` | queue/redis.go:50-90 | No job is ever delivered twice, whatever the interleaving, if and only if there is one worker. |
| `RedisQueue.TwoWorkersDeliverTwice` | queue/redis.go:72-90 | With two or more workers some run delivers one delayed job twice: both read it as due before either moves it. |
| `RedisQueue.DeliveredInOrder` | queue/redis.go:34-90 | Under any interleaving jobs are delivered in the order in which they became ready, none skipped. |
| `RedisQueue.PopAlone` | queue/redis.go:50-90 | A Pop that nobody disturbs moves exactly the jobs that are due to the end of the ready list, in the order read, and delivers the first ready one. |
| `RedisQueue.DueWithinASecond` | queue/redis.go:35-35 | Whole seconds lose less than a second of the delay asked for. |
| `RedisQueue.Redis.PushJob` | queue/redis.go:34-48 | A delayed job goes into the delayed set, any other to the end of the ready list. |
| `RedisQueue.Redis.PopReady` | queue/redis.go:54-60 | Takes the first job of the ready list. |
| `RedisQueue.Redis.ListDue` | queue/redis.go:73-77 | The delayed jobs that are due, each once, in the order of their times. |
| `RedisQueue.Redis.PromoteDelayed` | queue/redis.go:72-90 | Undisturbed, exactly the jobs that are due change sides, in order. |
| `TokenRotation.RevokedParsesIff` | auth/token.go:82-101 | After any sequential run, although the blacklist forgets, a revoked token parses again if and only if its expiry falls strictly between the two clock readings of that parse (sections 4.1.4 and 4.1.7 of RFC 7519). |
| `TokenRotation.ExchangedOnceIff` | auth/jwt.go:88-104 | Over every sequential run each refresh token is exchanged at most once if and only if none that was traded in is presented again while it expires. |
| `TokenRotation.ExchangedOnce` | auth/jwt.go:88-104 | In particular over every run in which no token expires between the two clock readings of its parse. |
| `TokenRotation.OneLiveIff` | auth/jwt.go:88-104 | Over every sequential run each family has at most one refresh token that is not revoked, at every step, if and only if no step exchanges a revoked refresh token, while it expires, whose family has one already. |
| `TokenRotation.OneUsablePerFamily` | auth/jwt.go:88-104 | In such a run, of two refresh tokens of one family that would both be exchanged if presented next, neither of them while it expires, both are the same. |
| `TokenRotation.TwoUsable` | auth/jwt.go:88-104 | A run from the start that reaches two usable refresh tokens of one family: a token is traded in, and again while it expires. |
| `TokenRotation.StraddledTokenExchangedAgain` | auth/jwt.go:88-104 | A traded-in token whose expiry falls between the two readings is traded in again. |
| `TokenRotation.RunCovered` | auth/revoke.go:25-45 | The invariant: a revoked token is on the blacklist up to its expiry, or it has expired. |
| `TokenEffects.ParsesIff` | auth/token.go:82-101 | At every point of every sequential run a token parses if and only if it was issued, has not expired at the first reading, and was neither traded in nor logged out before, or expires between the readings. |
| `TokenEffects.LogoutRefuses` | auth/jwt.go:63-74 | After a logout that parses its token, or whose claims were cached, every later parse of that token is refused unless it expires between the two readings. |
| `TokenEffects.LogoutSparesOthers` | auth/jwt.go:63-74 | Every other token parses as before the logout, and so does every token if the logout found no claims. |
| `TokenEffects.NewTokens` | auth/jwt.go:77-104 | Issuing adds an access and a refresh token of a new family, an accepted exchange such a pair of the presented token's family, each expiring at the last whole second within its lifetime, defaults included; any other step adds none. |
| `TokenRotation.MemoryRevoker.IsRevoked` | auth/revoke.go:31-45 | Answers whether the entry is still in force and deletes one whose time is over. |
| `TokenRotation.JWTGuard.constructor` | auth/jwt.go:17-27 | A guard with its own empty blacklist; nothing issued, nothing revoked. |
| `TokenRotation.JWTGuard.ParseToken` | auth/token.go:82-101 | Accepts exactly issued, unexpired tokens that the blacklist does not refuse. |
| `TokenRotation.JWTGuard.GenerateTokenPair` | auth/token.go:60-131 | Adds an access and a refresh token, each with its own clock reading and expiry, whole seconds and defaults included. |
| `TokenRotation.JWTGuard.RefreshPair` | auth/jwt.go:88-104 | Parse, check the kind, revoke up to the token's own expiry, issue a new pair of the same family. |
| `TokenRotation.JWTGuard.LogoutToken` | auth/jwt.go:63-74 | Revokes the request's token, whether its claims are parsed now or were cached. |
| `HandlerChain.ChainRunsAPrefix` | http/context.go:66-77 | For every chain of finite scripts of work, Next and Abort, execution terminates and the handlers started are 0, 1, ..., k-1, each once and in order; all of them if nobody aborts, whether or not they call Next. |
| `HandlerChain.ChainQuietAfterAbort` | http/context.go:66-77 | Nothing starts after an abort. |
| `HandlerChain.ChainNests` | http/context.go:66-72 | Enter and exit events are properly nested. |
| `HandlerWork.HandlersDoTheirWork` | http/context.go:66-78 | Every handler that is entered does all the work of its script, in order, between its own enter and exit events; its first Next, unless it comes after an abort, enters the next handler, and nothing else it does enters any. |
| `HandlerChain.Context.Next` | http/context.go:66-72 | The re-entrant loop over one mutable index refines the recursive meaning of the chain, and terminates. |
| `HandlerChain.Context.Round` | http/context.go:68-71 | One round: a handler, then the step. |
| `HandlerChain.Context.Invoke` | http/context.go:69-69 | A handler is any finite script, and may call Next and Abort at will. |
| `Conditions.ReadingRecoversClauses` | database/orm/query.go:562-592 | Read with SQL precedence, the tokens a loop emits and the arguments it collects give back the conditions, those inside raw texts included, each with its own values, as an OR of AND-groups; the database refuses them if and only if some condition is not readable (IN needs a list, an empty one only in SQLite; anything else an operator that compares, IS with a value only in SQLite). |
| `Conditions.GroupsKeepAll` | database/orm/query.go:562-592 | Grouping neither drops nor reorders a clause. |
| `Conditions.ReadPiece` | database/orm/query.go:568-590 | One condition, wherever it stands, is read back with its own values, so each of its placeholders denotes its own argument; it is refused exactly if it is not readable. |
| `Conditions.LowerCaseInRefused` | database/orm/query.go:748-748 | The operator "in", which the list lets through, is refused by every database, with a list as with a single value. |
| `Conditions.ShortAgreesIff` | database/orm/extra.go:261-279 | The shorter loop of adjust and HAVING writes the same condition as the full one if and only if there is no IN. |
| `QueryBuilder.SelectWhereReads` | database/orm/query.go:531-592 | The WHERE section of a SELECT reads back as the effective clauses, or is refused exactly if one is not readable. |
| `QueryBuilder.SelectHavingReads` | database/orm/query.go:599-609 | HAVING goes on counting where WHERE stopped and reads back as its own clauses, or is refused exactly if one is not readable; an IN is not. |
| `QueryBuilder.UpdateSetsRead` | database/orm/extra.go:346-354 | The SET list of a bulk UPDATE is read back with its own values. |
| `QueryBuilder.UpdateWhereReads` | database/orm/extra.go:354-355 | Its condition goes on counting after the SET list and is read back likewise. |
| `QueryBuilder.DeleteReads` | database/orm/extra.go:365-379 | A soft bulk DELETE sets deleted_at to its own argument, and both kinds read back as the effective clauses. |
| `QueryBuilder.IncrementAdds` | database/orm/extra.go:236-255 | Carrying out the SET list of Increment on a row adds the amount, negative or zero included, to the column and leaves every other alone, if and only if the amount is not the smallest 64-bit integer. |
| `QueryBuilder.DecrementSubtracts` | database/orm/extra.go:241-255 | Decrement subtracts every amount: the smallest one is negated twice over. |
| `QueryBuilder.AdjustReads` | database/orm/extra.go:257-280 | The condition of Increment and Decrement counts on after the amount and reads back as its own clauses. |
| `QueryBuilder.ConditionReads` | database/orm/extra.go:303-339 | All the loops write conditions that, after any arguments and before any others, read back as their own clauses; buildSelect and appendWhere write the same one. |
| `QueryBuilder.AdjustAgreesIff` | database/orm/extra.go:257-280 | Increment and Decrement filter by the same condition as the other statements if and only if the builder has no IN and is not restricted to deleted rows. |
| `QueryBuilder.SafeColumn` | database/orm/query.go:759-768 | Only letters, digits, underscore and dot are left, and a name is unchanged exactly if it had nothing else. |
| `QueryBuilder.SafeColumnJoins` | database/orm/query.go:759-768 | A name is cleaned character by character, so the safe ones keep their order. |
| `QueryBuilder.ListedOperatorKept` | database/orm/query.go:744-757 | An operator on the list keeps its spelling. |
| `QueryBuilder.SanitizeOperator` | database/orm/query.go:752-757 | The result is on the list, and is the given operator or "=". |
| `QueryBuilder.Builder.WithTrashed` | database/orm/query.go:245-249 | The builder becomes the one without either deletion filter that the split below is about. |
| `QueryBuilder.Builder.OnlyTrashed` | database/orm/query.go:252-256 | And the one restricted to deleted rows. |
| `QueryBuilder.Builder.Clone` | database/orm/query.go:266-275 | A new builder with the same state, independent of the original. |
| `QueryBuilder.Builder.WriteHoles` | database/orm/query.go:579-585 | The placeholder list of an IN, with consecutive numbers. |
| `QueryBuilder.Builder.WriteClause` | database/orm/query.go:568-590 | One clause and its arguments; a raw text is written as it stands, condition by condition. |
| `QueryBuilder.Builder.WriteNext` | database/orm/query.go:564-590 | One round keeps what has been written equal to the condition of the clauses so far; the placeholder number used is one more than the arguments collected. |
| `QueryBuilder.RawAsPieces` | database/orm/query.go:568-573 | A raw text is the tokens and arguments of its conditions. |
| `QueryBuilder.Builder.WriteWhere` | database/orm/query.go:562-592 | The loop writes the condition of all clauses. |
| `QueryBuilder.Builder.AppendWhere` | database/orm/extra.go:303-339 | The same condition after the arguments already collected. |
| `QueryBuilder.Builder.WriteShort` | database/orm/extra.go:261-279 | The shorter loop of adjust writes its condition. |
| `QueryBuilder.Builder.WriteShortNext` | database/orm/extra.go:265-278 | One round of it, with the same count. |
| `QueryBuilder.Builder.WriteHaving` | database/orm/query.go:599-609 | The HAVING loop, with the same count. |
| `QueryBuilder.Builder.BuildSelect` | database/orm/query.go:531-633 | The whole SELECT with its sections and arguments; FOR UPDATE only for the drivers that have it. |
| `QueryBuilder.Builder.UpdateAll` | database/orm/extra.go:342-355 | The bulk UPDATE, or nothing for an empty map. |
| `QueryBuilder.Builder.WriteSets` | database/orm/extra.go:346-353 | The SET loop. |
| `QueryBuilder.Builder.DeleteAll` | database/orm/extra.go:365-379 | A soft delete sets deleted_at, a hard one deletes, both under the builder's condition. |
| `QueryBuilder.Builder.Adjust` | database/orm/extra.go:245-280 | The statement and arguments that the lemmas above read, in 64-bit arithmetic, on the builder's table. |
| `QueryBuilder.Builder.Increment` | database/orm/extra.go:236-238 | adjust by the amount. |
| `QueryBuilder.Builder.Decrement` | database/orm/extra.go:241-243 | adjust by the negated amount, in 64-bit arithmetic. |
| `SoftDelete.HidesDeletedIff` | database/orm/query.go:554-560 | A query over one table never shows a deleted row, whatever the data, if and only if the database refuses it or every alternative of its condition, those opened inside raw texts included, has its own "deleted_at IS NULL". |
| `SoftDelete.RawOrLeaks` | database/orm/query.go:568-571 | WhereRaw with the text a = 1 OR b = 2, written without parentheses, lets a deleted row through. |
| `SoftDelete.ConjunctiveIff` | database/orm/query.go:131-164 | All conditions are joined by AND exactly if no clause is an OrWhere and no raw text has an OR. |
| `SoftDelete.OrWhereLeaks` | database/orm/query.go:136-140 | A single OrWhere on a default query lets a deleted row through. |
| `SoftDelete.DefaultAndTrashedSplit` | database/orm/query.go:245-256 | Without OrWhere and without an OR inside a raw text the default query takes its window from the rows that are not deleted, and OnlyTrashed from those that are, among all rows that WithTrashed takes its window from, in the same order; all three are refused together. |
| `SoftDelete.SplitsIff` | database/orm/query.go:245-256 | If its own conditions do not mention deleted_at, the default query yields exactly the rows of WithTrashed that are not deleted and OnlyTrashed exactly the deleted ones, whatever the data, if and only if the builder is refused or has no limit and no offset. |
| `SoftDelete.MarkedSplits` | database/orm/query.go:245-256 | These two parts are disjoint and together are everything. |
| `SoftDelete.DeleteAllMovesToTrash` | database/orm/extra.go:365-377 | DeleteAll is accepted exactly if its condition is readable. After a soft DeleteAll of a builder without OR whose query is accepted, the same query finds nothing; if the clauses do not look at deleted_at, OnlyTrashed finds, marked, exactly the rows WithTrashed had found before. |
| `SoftDelete.DeleteAllSparesOthers` | database/orm/extra.go:365-377 | A soft DeleteAll marks exactly the rows that meet the builder's condition and leaves every other row, and the order of all, as it was. |
| `SoftDelete.GetIsMatching` | database/orm/query.go:531-633 | The rows of an accepted query over one table are the window, by LIMIT and OFFSET, of those that meet the WHERE and HAVING clauses, read from the emitted statement; unreadable clauses, HAVING outside MySQL and OFFSET without LIMIT outside PostgreSQL are errors. |
| `Pagination.PagesCover` | database/orm/query.go:322-355 | For every result and every perPage, pages 1..TotalPages concatenated are exactly the full result. |
| `Pagination.OnlyTheLastIsShort` | database/orm/query.go:322-355 | Every page before the last is full and the last is not empty. |
| `Pagination.LaterPagesEmptyIff` | database/orm/query.go:335-337 | A page after the last is empty if and only if its offset, in 64 bits, is not before the end of the result; in particular whenever the offset does not overflow. |
| `Pagination.OverflowShowsTheFirstPage` | database/orm/query.go:335-337 | A large enough page number wraps around to the first page. |
| `Pagination.CountsRowsIff` | database/orm/query.go:306-318 | Count yields the number of matching rows on every database if and only if the query has no GROUP BY and no HAVING and, on PostgreSQL, no lock and no order other than by the count. |
| `Pagination.OrderedPostgresRefused` | database/orm/query.go:306-318 | So on PostgreSQL a query ordered by id can be neither counted nor paginated. |
| `Pagination.CountablePages` | database/orm/query.go:322-355 | For a countable query Paginate answers with the page of the full result. |
| `Pagination.PageNumbers` | database/orm/query.go:322-355 | The answer names the page, the first unless a positive one is asked for, its length, twenty unless a positive one is asked for, and the count as the total; it has no more items than its length. |
| `Pagination.Count` | database/orm/query.go:306-318 | Runs the counting statement whatever the builder's own limit and offset, and leaves the caller's builder unchanged; for a countable query the count is the number of rows. |
| `Pagination.Paginate` | database/orm/query.go:322-355 | Answers with a window of the full result and the totals of the count, defaults included, or with the error of either statement, and leaves the caller's builder unchanged. |
| `Pagination.GetWindow` | database/orm/query.go:335-342 | A copy with another limit and offset yields that window of the full result. |
| `EagerLoading.BatchIsNaiveIff` | database/orm/relation.go:24-67 | For every table contents and every path, batched loading gives each model what loading it alone would if and only if no level of belongsToMany takes a field that was already set away from an unlinked model in a batch with a linked one. |
| `EagerLoading.FreshModelsAgree` | database/orm/relation.go:24-67 | For models as queries return them, with no relation loaded yet, they always agree, along every path, and the batch reports a missing relation exactly if some model alone would. |
| `EagerLoading.BatchFailsIff` | database/orm/relation.go:105-138 | Under the same condition the errors agree too. |
| `RelationMeaning.HasManyHolds` | database/orm/relation.go:147-197 | hasMany sets the field to all rows, by their positions in the table, whose foreign key is the model's id, in the table's order. |
| `RelationMeaning.HasOneHolds` | database/orm/relation.go:199-260 | hasOne sets the field to the last row whose foreign key is the model's id, and leaves it if there is none. |
| `RelationMeaning.BelongsToHolds` | database/orm/relation.go:262-328 | belongsTo sets the field to the last row whose id is the model's foreign key, and leaves it without a key or a row. |
| `RelationMeaning.BelongsToManyHolds` | database/orm/relation.go:330-441 | belongsToMany sets the field to the rows that the model's pivot rows lead to, one for each, in the order of the pivot table. |
| `EagerLoading.BatchClearsUnlinked` | database/orm/relation.go:394-396 | The condition can fail: a model keeps its field when loaded alone and loses it in a batch. |
| `EagerLoading.HasManyPartitions` | database/orm/relation.go:179-194 | On models with distinct ids hasMany hands out every row the query brought, each exactly once. |
| `EagerLoading.UniqueMatch` | database/orm/relation.go:306-316 | With a primary key belongsTo gives the one row that has it. |
| `EagerLoading.HavingSelected` | database/orm/relation.go:165-183 | The rows a batch query brings contain, for each id of the batch, exactly the rows of the table with that key, in order. |
| `EagerLoading.JoinSelected` | database/orm/relation.go:364-427 | The two queries of belongsToMany bring all that the pivot-order join of each model needs. |
| `EagerLoading.LoadHasMany` | database/orm/relation.go:147-197 | Each model gets the order-preserving filter of the child rows by its id. |
| `EagerLoading.LoadHasOne` | database/orm/relation.go:199-260 | Each model gets the last match, and keeps its field if there is none. |
| `EagerLoading.LoadBelongsTo` | database/orm/relation.go:262-328 | Each model gets the row its foreign key names, and keeps its field if the key is absent or matches nothing. |
| `EagerLoading.LoadBelongsToMany` | database/orm/relation.go:330-441 | Every model gets the join in the order of the pivot table, unless no model of the batch is linked, when nothing changes. |
| `EagerLoading.GroupBy` | database/orm/relation.go:179-183 | Groups the items by key, keeping their order. |
| `EagerLoading.IndexBy` | database/orm/relation.go:236-240 | Indexes the items by key; a later one replaces an earlier one. |
| `EagerLoading.GroupPairs` | database/orm/relation.go:416-427 | Groups the related items of the pivot rows by parent, in the order of the pivot rows. |
| `EagerLoading.DistinctRelated` | database/orm/relation.go:372-387 | Collects the related ids, each once, and none exactly if there is no pivot row. |
| `EagerLoading.EagerLoad` | database/orm/relation.go:105-138 | Dispatches on the kind of the relation; an unknown relation is an error that changes nothing. |
| `EagerLoading.ChildPointers` | database/orm/relation.go:38-67 | The children of all models, one model after the other. |
| `EagerLoading.WithPath` | database/orm/relation.go:24-36 | Level by level, the loaders refine the batch; the result says whether a relation was missing. |
| `Cron.AcceptedMatches` | schedule/schedule.go:236-290 | In every accepted field a number in range matches exactly if the field is "*" or some comma part of the grammar (value, range, stepped range, star with step) denotes it, or is a range that overruns 64 bits whose counter comes to it before it is above the bound. |
| `Cron.DenotedMatches` | schedule/schedule.go:236-290 | So if no range of the field overruns, a number matches exactly if the field is "*" or some comma part denotes it. |
| `Cron.StoredInRangeIff` | schedule/schedule.go:252-279 | An accepted field stores only numbers in range if and only if none of its stars overruns. |
| `Cron.AcceptedIff` | schedule/schedule.go:236-282 | Every field is accepted, after some number of rounds of its loops, if and only if it is "*" or every comma part is grammatical and none is a range whose bound is at or above the top its 64-bit counter can come to. |
| `Cron.AcceptedIsSpelled` | schedule/schedule.go:247-275 | A field with an ungrammatical part is never accepted. |
| `Cron.ParsePartIff` | schedule/schedule.go:242-279 | Parsing a part, spaces trimmed, recognises the grammar and nothing else. |
| `Cron.FieldRoundTrip` | schedule/schedule.go:236-282 | A printed list of parts none of which overruns is read back as the numbers its parts denote. |
| `Cron.SubsetRoundTrip` | schedule/schedule.go:273-279 | Every non-empty set of numbers in range, printed as a comma list in any order, is read back as itself. |
| `Cron.OverrunStoresNonDays` | schedule/schedule.go:252-256 | The days "*/9223372036854775807" are accepted with the stored numbers 1, -9223372036854775808 and -1. |
| `Cron.OverrunMatchesWrongly` | schedule/schedule.go:266-270 | The field "5-5/9223372036854775806" is accepted and matches 1, which it does not denote. |
| `Cron.RangeHangsIff` | schedule/schedule.go:266-270 | Parsing a field that is a single range goes on for ever if and only if its bound is at or above that top. |
| `Cron.HangingRanges` | schedule/schedule.go:266-270 | For instance every range up to the largest integer hangs, and so does "0-9223372036854775806/2". |
| `CronLoops.VisitExact` | schedule/schedule.go:253-270 | A loop whose counter does not overrun goes through exactly the numbers of the progression and ends. |
| `CronLoops.StarVisits` | schedule/schedule.go:252-256 | Every star loop of a field ends, and among the numbers in range goes through exactly those that are meant. |
| `CronLoops.StarOverrun` | schedule/schedule.go:252-256 | A star that overruns goes through 1, the smallest integer and -1. |
| `CronLoops.StarOverrunsIff` | schedule/schedule.go:252-256 | Star with step n overruns exactly if n is within min of the largest integer. |
| `CronLoops.OverrunGoesOn` | schedule/schedule.go:253-270 | A counter that overruns goes on below zero, and so below its bound, where its loop should have ended; one that does not overrun ends it. |
| `CronLoops.EndsIff` | schedule/schedule.go:266-270 | A loop has not ended after some rounds if and only if all its 64-bit counters up to then are within its bound. |
| `CronLoops.EverEndsIff` | schedule/schedule.go:266-270 | The loop from a to b ends if and only if b < M - (M - a) mod g, where M is the largest integer and g the largest power of two that divides the step. |
| `CronLoops.BelowTop` | schedule/schedule.go:266-270 | No 64-bit counter passes that top. |
| `CronLoops.ReachesTop` | schedule/schedule.go:266-270 | Some counter comes to it. |
| `CronLoops.SeenIff` | schedule/schedule.go:266-270 | An ended loop went through exactly the numbers its counter comes to before it is above the bound. |
| `Cron.AddStar` | schedule/schedule.go:253-255 | The loop of a stepped star, on 64-bit counters, stores every counter it goes through. |
| `Cron.AddRange` | schedule/schedule.go:266-270 | The loop of a range, on 64-bit counters, stores those in range. |
| `Cron.AddPart` | schedule/schedule.go:252-279 | One part adds exactly what its loop goes through. |
| `Cron.ParseField` | schedule/schedule.go:236-282 | The loop over the parts refines the meaning of the field, followed for any number of rounds in each inner loop, up to the first part that is wrong. |
| `CronRunner.CronMatchesIff` | schedule/schedule.go:211-299 | Every accepted expression matches a moment exactly if each of its five texts lets through the reading it stands for. |
| `CronRunner.FieldsOfWords` | schedule/schedule.go:212-215 | Words joined by single spaces are read back as those words. |
| `CronRunner.ParseCron` | schedule/schedule.go:211-234 | Five fields with their ranges, in order, up to the first that is refused or whose loops go on. |
| `CronRunner.RunCron` | schedule/schedule.go:172-187 | Each turn waits for the next whole minute, or not at all if that is over, and invokes the task exactly if the minute it then reads matches. |
| `CronRunner.FiresOncePerMinute` | schedule/schedule.go:172-187 | On a monotone clock a cron task is invoked at most once per minute, in order, and only in matching minutes. |
| `CronRunner.PunctualMissesNothing` | schedule/schedule.go:172-187 | If each wake-up is in the minute it waited for and each task ends within its minute, it is invoked in every matching minute. |
| `CronRunner.EndsNextMinuteIff` | schedule/schedule.go:172-187 | A turn reads the minute after the one it began in if and only if what its wait could not make up for, the timer's delay and the time until the match are less than a minute. |
| `RouteRegistry.PrintedReadsIff` | ai/generator/register.go:51-110 | Reading the printed file gives the list back if and only if every model name is non-empty and free of whitespace. |
| `RouteRegistry.FileHoldsRegistered` | ai/generator/register.go:18-49 | Over any sequence of runs the file holds each model once, in first-registration order, with its latest auth flag. |
| `RouteRegistry.FirstSeenInOrder` | ai/generator/register.go:30-41 | The list of models is strictly ordered by first registration. |
| `RouteRegistry.UpsertRegistered` | ai/generator/register.go:30-41 | One more run updates the flag in place or appends the model. |
| `RouteRegistry.UpsertRoute` | ai/generator/register.go:30-41 | The loop with its break refines the update of the first match. |
| `RouteRegistry.RenderGeneratedRoutes` | ai/generator/register.go:72-110 | The two loops print the whole file. |
| `RouteRegistry.WriteRouteLines` | ai/generator/register.go:81-87 | One marker line per route, in order. |
| `RouteRegistry.WriteCalls` | ai/generator/register.go:101-107 | One guarded registration per route, in order. |
| `RouteRegistry.ParseGeneratedRoutes` | ai/generator/register.go:51-70 | Collects the routes of all marker lines, in order. |
| `RouteRegistry.Generator.RegisterRoutes` | ai/generator/register.go:18-46 | Reads the file, records one model, prints it anew. |
| `GeneratedRoutes.ReadsBetweenCode` | ai/generator/register.go:51-70 | Marker lines between any lines of code are read back. |
| `GeneratedRoutes.RouteLineReads` | ai/generator/register.go:82-86 | A marker line is read back as its route. |
| `GeneratedRoutes.SecondWordDecides` | ai/generator/register.go:59-67 | The second word of a marker line asks for authentication exactly if it is "auth". |
| `GeneratedText.CallsRead` | ai/generator/register.go:101-107 | The printed calls, read by their guards and arguments, are the routes in order, each with its flag. |
| `GeneratedRoutes.ReadNamesArePlain` | ai/generator/register.go:59-67 | Whatever the file holds, the names read from it are non-empty and free of whitespace. |

## Left out

- Migrations: failures of the ledger's own statements (a script that ran but could not be recorded), and the error that line 58 of the migrator drops; migration names are distinct and SQL orders them as Go does. Status and the splitting of scripts into statements are easy members.
- Transactions: failing SAVEPOINT, RELEASE, BEGIN or COMMIT statements, panics, callbacks that use a handle other than the one they are given, and the wrap-around of the 64-bit savepoint counter.
- Once: each store and lock call is one atomic step, as with Redis; the two-step expiry of the in-memory cache is below that. Remember, tags and the JSON helpers are not modelled.
- Router: middleware, groups, trusted proxies and the responses that ServeHTTP writes; only its dispatch through lookup is covered. A parameter named "*" shares its key with the wildcard.
- RateLimit: reals stand for floats, the window is positive and the limit is not negative.
- JobQueue: payloads, timeouts, error texts, OnFailed and custom backoffs; the wait of a delayed job may take longer than its delay. Job identifiers are unique.
- RedisQueue: JSON encoding, failed lists and errors of the Redis client.
- TokenRotation: signatures are ideal and identifiers unique; calls are sequential, since check and revocation are not atomic. Guards other than JWT are not modelled.
- HandlerChain: panics and handlers that replace the chain while it runs.
- QueryBuilder: the text of the sections other than conditions and SET lists, identifier quoting, and whether a driver can bind a value. A raw text is given as its conditions with their joiners, each with the arguments of its own placeholders; parentheses make one condition. A column name counts as an identifier unless it is empty. Values are integers or lists of integers.
- QueryBuilder.IncrementAdds: the database's numbers are unbounded.
- SoftDelete: inserts, single-row updates, hooks and hard deletes. Only the texts "deleted_at IS NULL" and "deleted_at IS NOT NULL" are understood; every other condition is an arbitrary truth about a row. Queries with joins, GROUP BY or a select list are excluded by Plain, as their results are not rows of the table; HAVING without groups filters rows in MySQL and is refused elsewhere.
- Pagination: databases that change between the two statements. A position in ORDER BY is written in decimal digits; PostgreSQL 16 has other integer literals.
- EagerLoading: reflection, naming of tables and keys, null keys, keys of different Go types and failing queries. A relation field is a slice or a pointer, not an embedded struct. Models are values: children are copied out and written back where the source follows pointers, so two models that share one child object are not captured.
- CronRunner.RunCron: time zones, daylight saving, and the overlap and lock checks of invoke; the fixed-interval and daily tasks are easy members.
- RouteRegistry: formatting the printed source is the identity; the file system and the patching of routes.go are not modelled.
- Drivers, HTTP, mail, storage and payment clients, validation, sessions, events, the container, configuration, scaffolding and OpenAPI output: easy members or foreign calls.
