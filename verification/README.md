# A verified model of the state-keeping code

The library keeps state in places where several goroutines, processes or
clock readings meet: an erasure record written by many queue consumers, a
filtered listing over a paged source, optimistic writes, a read-through cache,
idempotency claims, lease locks, a circuit breaker, rate limits. This project
models that code in Dafny and proves what it promises over every run, every
interleaving and every input.

Verify it with `dafny verify dfyconfig.toml` (Dafny 4.11).

## How it is built

- Code that updates fields, maps or local variables step by step is a class or
  a method with loops: `Participant`, `QueryFiltered`, `Row`, `Cache`,
  `MemoryStore`, `DynamoStore`, `Middleware`, `MemStore`, `Locker`,
  `HostBreaker`, the two `Limiter`s, `MemoryCounter`, `Guard`. Each method is
  proved against a function of the old state or against the promise itself.
- What concurrent callers do is a step function `Do` over an explicit system
  state, and `Run` folds it over any list of steps; theorems quantify over that
  list. The methods' specification functions are the ones the steps use, except
  for the erasure participant, `Row` and `Locker`: there the interference of others is
  inside the methods themselves (`Others`), and each operation is proved to
  take effect at one instant.
- Calls to DynamoDB, Valkey, SQS or a handler are nondeterministic choices or
  parameters; where a result is traced back to them (the filtered query, the
  lock store, the erasure store, the versioned writer) they are functions of the
  call's number, chosen freely. Clock readings are parameters, in nanoseconds, in order; where the
  source reads the clock twice (`now`, then `later`) so does the model. Rate
  arithmetic is over `real`.

| module | models |
|---|---|
| `Erasure`, `ErasureRun`, `ErasureDone`, `ErasureStore` | the erasure record, its consumers interleaved, what a done ack means for the user, and the store, handler and loop as code |
| `Pagination` | the filtered query, its projections and its cursor |
| `Versioned` | update expressions and the versioned read-modify-write |
| `TtlCache`, `ReadThrough`, `CacheHits` | the TTL cache, the singleflight read-through cache on it, and when it answers from the cache |
| `Idempotency`, `IdempotencyRun` | the two claim stores and the middleware in front of handlers |
| `Lock`, `Breaker` | lease locks and the per-host circuit breaker |
| `Bucket`, `Counter`, `Lockout` | token bucket, fixed windows, lockout |
| `KeyEncoding`, `Base64`, `Cursor` | the hashed key list and the page cursor |
| `Options`, `Clock`, `Decimal`, `Doubling` | shared helpers |

## Where the code falls short of the plain promise

Each of these is kept as the code has it, with the exact condition.

- An ack "done" is sent only after the purge returned done **if and only if** no
  unlock on the queue carries an erase's request id with an `issued_at` at or
  after it (`AcksEarnedIffNoMask`; the failing run is `MaskingAcksUnearned`).
- An ack "done" does not mean that the user is erased. When the record became
  active during the purge, the erase's last write leaves it alone and the ack
  goes out: at that step the user is erased **if and only if** the record was
  not active as of the erase or later (`ErasedUnlessReturned`). Without Clear, a
  run that sends the ack while the user is not erased exists **if and only if**
  the queue holds an unlock newer than a lock (or erase) that is no older than
  the erase, or a relink newer than a lock under which some erase of the user
  took effect (`DoneNotErasedIffReopened`); any unlock or relink newer than an
  erase with a positive timestamp qualifies (`NewerReopens`). With Clear, every
  erase with a positive timestamp has such a run (`ClearReopens`).
- A page that must be cut fails with "lacks key" **if and only if** the
  projection reaches a key attribute through a document path only: such a name
  counts as projected, is not injected, and yet is not returned
  (`QueryFiltered`, `CutPage`, for callers outside the aliases below). For every key schema and projection there is a
  partition whose query takes that branch (`QueryThreeItems`).
- The aliases injected for key attributes are not checked against the caller's
  own: the projection is widened as intended **if and only if** the caller uses
  none of them (`WidensIffNotCaptured`; `AliasIsCaptured` is a projection that
  loses what it asked for). Positions, counts and cursors of the pages hold for
  every caller, the attributes shown for callers outside the reserved prefix.
- Erased in every delivery order **if and only if** some erase is newer than
  every unlock (`EveryOrderErases`).
- A version conflict is documented as every attempt having lost to another
  writer. A write with nobody in between is refused **if and only if** the read
  before it was stale or the version is NULL, which reads as 0 and equals no
  number (`OnlyNewestPasses`). So stale reads alone, or a NULL version, exhaust
  any number of attempts (`ConflictWithoutRace`, `NullNeverPasses`); what holds
  is that, unless the version is NULL, others committed at least as often as the
  reads were fresh (`UpdateVersioned`).
- An update fails with a token clash **if and only if** the item read has a
  version and the update sets an attribute called `expected_version`
  (`Prepare`, `ConditionalUpdate`).
- Two handlers of a key are in flight at once only if one of that key was late,
  then or earlier in the run (`DoubledMeansLate`); other keys' handlers do not
  matter. For a handler beside which none of its key has ended with the store in
  reach, a further request finds or starts a second handler **if and only if**
  it is late (`SecondStartsIffLate`). But a claim carries no owner: a late
  handler's release deletes the claim of the one that took over, and then two
  handlers run that are both within their lease (`LateReleaseDoubles`, for every
  positive lease). The same holds over the DynamoDB store.
- Two different requests feed the fingerprint the same bytes **if and only if** a
  part holds a NUL; with NUL-free method, path and query there is no such pair
  (`SharedIffNul`, `PreimageInjective`).
- A release that comes after its lease lapsed and the same Locker took the key
  again leaves the newer lock in place but makes the Locker forget its token:
  Renew then reports the lease lost **if and only if** the keys are the same or
  the store fails (`ReleaseThenRenew`; `LateReleaseForgets` is such a run).
- A page with `has_previous` but no previous cursor is documented to be the
  second page, so that a client sends no cursor to go back. For a client that
  follows the cursors it is given, forward and back in any order, that holds
  **if and only if** it is not on the third page or later after going back: a
  previous cursor carries no way further back
  (`NullPreviousMeansSecondPage`; `BackTwiceIsLost` is such a walk).
- `AcquireOrdered` gives back every lock it took, except where the store failed
  that lock's delete, an error the release func ignores (`GivenBack`). A key
  named twice is refused **if and only if** its earlier lease in the same call
  is still running, when nobody else holds it (`RepeatIffLapsed`).

## Model

| member | source | states |
|---|---|---|
| `Erasure.WorkspaceIDs` | erasure/message.go:118-126 | the loop computes the merged list that WorkspacesExact characterises |
| `Erasure.WorkspacesExact` | erasure/message.go:118-126 | the list holds exactly the ids of organizations and workspaces, keeps the organizations as its prefix, and adds no duplicate |
| `Erasure.WritesClimb` | erasure/state.go:87-121 | whatever Apply, Clear or Relink writes is strictly above the record it replaces in (SeqNS, rank) with locked < erased < active |
| `Erasure.TwoFieldsIdentifyTheRecord` | erasure/state.go:178-197 | for a record read earlier, the two-field put condition passes if and only if the whole stored record is the one read |
| `Erasure.ApplyIsIdempotent` | erasure/state.go:87-121 | a redelivered message finds its own record and writes nothing |
| `Erasure.ReturningUserIsSafe` | erasure/state.go:227-276 | after Clear or Relink every message issued by then is stale, the record keeps the purged request's id; Relink writes if and only if the record is erased and older |
| `Erasure.ReturningUserCanLeaveAgain` | erasure/state.go:227-276 | Clear writes if and only if the record is erased; after it, or after a Relink, a lock, unlock or erase takes effect if and only if it was issued after that moment and after the record it replaced |
| `Erasure.RememberedLongEnough` | erasure/state.go:87-121 | whatever Apply, Clear or Relink writes stands under its key, dated by the write; the TTL never lets go of a lock, of a tombstone only after erasedTTL, if there is one, and of an active record only after thirty days, each within a second |
| `Erasure.NewestWins` | erasure/state.go:87-121 | any order and duplication of locks and unlocks with distinct positive issued_at ends in the newest one's state, sequence and request |
| `Erasure.DecisiveEraseWins` | erasure/state.go:87-121 | any order and duplication containing an erase newer than every unlock ends erased |
| `Erasure.EveryOrderErases` | erasure/state.go:87-121 | all reorderings of a delivery list end erased if and only if it holds an erase newer than every unlock |
| `ErasureRun.KeysApart` | erasure/state.go:44-45 | user and workspace keys never collide, and each is injective |
| `ErasureRun.PutIsAtomic` | erasure/state.go:152-197 | a conditional put that passes is the operation applied to the table as it stands at that instant |
| `ErasureRun.StepKeepsInv` | erasure/consumer.go:277-347 | every step of every consumer keeps the protocol invariant and only moves records up |
| `ErasureRun.RunKeepsInv` | erasure/consumer.go:277-347 | every reachable state satisfies it: erased records were purged, workspace records are absent or erased, every done ack is explained |
| `ErasureRun.RunsAreSerializable` | erasure/state.go:152-276 | any interleaving of Apply, Clear and Relink leaves the table a serial replay leaves, and each operation answered what it would have answered in that order |
| `ErasureRun.AnswersAreCommitted` | erasure/state.go:152-276 | the table changes only with a logged commit, and a consumer proceeds only on the logged answer of its own operation |
| `ErasureRun.RecordsClimb` | erasure/state.go:87-121 | across any run a record is the same or strictly above, so no (seq_ns, state) pair returns |
| `ErasureRun.PurgeStartsBlocked` | erasure/consumer.go:306-326 | at the step a purge starts the store holds the user as locked or erased, and it never starts for an erase not newer than an active record |
| `ErasureRun.AckedWorkspacesAreTombstones` | erasure/consumer.go:328-346 | once the purge path acked done, every organization and workspace of the message is erased, at every later point of the run |
| `ErasureRun.EarnedWithoutMasks` | erasure/consumer.go:306-346 | without masking unlocks, every done ack follows a purge of that request that returned done |
| `ErasureRun.MaskingAcksUnearned` | erasure/consumer.go:315-325 | for every masking pair there is a run that acks done with no purge |
| `ErasureRun.AcksEarnedIffNoMask` | erasure/consumer.go:306-346 | the ack-after-purge law holds for all runs of a queue if and only if no unlock on it masks an erase |
| `ErasureDone.ErasedUnlessReturned` | erasure/consumer.go:337-346 | at the step after which the purge path acks done, the user is erased if and only if the record had not become active again, as of the erase or later |
| `ErasureDone.StepKeepsOk` | erasure/consumer.go:306-346 | every step but Clear keeps: a locked or erased record has its lock and erase on the queue, and a user who is not erased during a purge or before its ack has a reason there |
| `ErasureDone.NotErasedMeansReopened` | erasure/consumer.go:337-346 | in every run without Clear, a done ack sent while the user is not erased means the queue holds messages that reopen the erase |
| `ErasureDone.UnlockReopens` | erasure/consumer.go:337-346 | for every such unlock there is a run that sends the done ack with the user active |
| `ErasureDone.RelinkReopens` | erasure/consumer.go:293-346 | for every such relink there is a run that sends the done ack with the user active |
| `ErasureDone.DoneNotErasedIffReopened` | erasure/consumer.go:306-346 | a run without Clear that sends the done ack of an erase while the user is not erased exists if and only if the queue reopens that erase |
| `ErasureDone.NewerReopens` | erasure/state.go:97-121 | any unlock or relink newer than an erase with a positive timestamp reopens it |
| `ErasureDone.ClearReopens` | erasure/state.go:227-247 | with Clear, every erase with a positive timestamp has a run that sends its done ack while the user is not erased |
| `ErasureDone.LeavingAgainIsPurged` | erasure/consumer.go:306-326 | a user erased, cleared and leaving again: the newer erase, of whatever request, has a run that reaches its purge |
| `ErasureStore.Participant.Round` | erasure/state.go:152-197 | one read-decide-put round under interference takes effect atomically at one instant with that instant's answer, or writes nothing: a store error if and only if a call failed, a lost race only if another consumer wrote the key in between |
| `ErasureStore.Participant.Put` | erasure/state.go:178-197 | the conditional put takes effect on the record read, fails if and only if its call fails, and is refused only if the key was written since the read |
| `ErasureStore.Participant.ApplyChanged` | erasure/state.go:152-176 | success is one atomic Apply, changed says exactly whether the state changed; a store error if and only if the last call failed; giving up only after three rounds in which others wrote the key three times, and nothing committed |
| `ErasureStore.Participant.Reactivate` | erasure/state.go:227-276 | Clear and Relink take effect atomically in a single round, or fail: a call failed, or another consumer wrote the key |
| `ErasureStore.Participant.SendAck` | erasure/consumer.go:323-346 | the message is handled if and only if the call did not fail, and then the ack was sent |
| `ErasureStore.Participant.HandleBody` | erasure/consumer.go:277-347 | a message is left only if it does not decode, a call failed, others wrote a key once per round, the purge did not succeed, or the erase is stale and of another request; a handled one had no failed call; one for another service is handled without any call; what is committed is the message's plan, in order (an erase: lock, then, only after a purge that is done, every workspace and the user), all of it when handled and nothing beside it; acks match purge outcomes; at most one ack |
| `ErasureStore.Participant.HandleChange` | erasure/consumer.go:291-304 | a relink, lock or unlock commits its one operation, or is left for a failed call or lost races |
| `ErasureStore.Participant.HandleErase` | erasure/consumer.go:306-346 | the lock is committed first, and the purge starts in a world that holds the user as locked or erased; done is acked after purge done and every tombstone in order, the user then erased unless active again meanwhile, or with no purge for a stale erase of the same request; left only for one of handle's reasons |
| `ErasureStore.Participant.PurgeAndAck` | erasure/consumer.go:326-346 | the outcome is left, or an ack of exactly the purge's result; a purge that is not done commits nothing |
| `ErasureStore.Participant.TombstoneAndAck` | erasure/consumer.go:331-346 | done is acked only after every workspace, in the message's order, and then the user were applied; that last Apply left the user erased if and only if it did not find them active as of the erase or later |
| `ErasureStore.Participant.CloseAndAck` | erasure/consumer.go:337-346 | the last Apply takes effect at one instant, erases the user unless back, and only then the ack is sent |
| `ErasureStore.NextIdle` | erasure/consumer.go:242-247 | the idle update gives base doubled once per further empty poll, capped, zero after a message, unchanged by a failed poll |
| `ErasureStore.Participant.RunLoop` | erasure/consumer.go:222-275 | a message is deleted only if it decoded and, when for this service, its operation is committed or its erase acked; one not deleted has a reason; nothing is committed that no message received for this service plans; each sleep is the capped doubling |
| `Pagination.ProjectedNames` | dynamo/base.go:516-532 | exactly the top-level attribute names a projection mentions, aliases resolved |
| `Pagination.InjectKeyProjection` | dynamo/base.go:537-557 | the exact new projection for every caller; if the caller uses no reserved alias it shows what the caller's does plus exactly the missing key attributes |
| `Pagination.WidensIffNotCaptured` | dynamo/base.go:537-557 | for a projection without overlapping paths, the injected projection is the caller's plus the missing keys if and only if no path of the caller's is one of the injected aliases |
| `Pagination.AliasIsCaptured` | dynamo/base.go:537-557 | a projection through an alias of the reserved name asks for an attribute and no longer shows it |
| `Pagination.StripInjected` | dynamo/base.go:559-571 | every item loses exactly the injected attributes |
| `Pagination.StripUndoesInject` | dynamo/base.go:537-571 | stripping the widened projection of any stored item gives the caller's projection of it, and the injected keys were shown whole |
| `Pagination.CursorFrom` | dynamo/base.go:490-503 | the item's key, if and only if the schema is known and no key is missing, else which error |
| `Pagination.CursorOf` | dynamo/base.go:490-503 | from a shown item: the stored item's key or lacks-key; lacks-key if and only if a key is reached through a document path only, for callers outside the reserved aliases |
| `Pagination.NestedKeyHidden` | dynamo/base.go:516-557 | a key projected only through a document path is missing from every item returned |
| `Pagination.CutPage` | dynamo/base.go:461-472 | a cut page lists exactly the matches up to its cursor, which is the key of the last; it fails, with the error cursorFrom gave, if and only if such a nested key is projected |
| `Pagination.TakeAnswer` | dynamo/base.go:461-483 | an answer ends the query if and only if the limit is reached, no key came or the page cap is; where the page ends and whether its cursor is nil follow from the answer: a page that is not cut ends with the call, with a nil cursor if and only if no key came, and a cut one just after the limit-th match, with that item's key; lacks-key if and only if it overflows the limit with a nested key; otherwise the next call continues without gap or overlap |
| `Pagination.CallOnce` | dynamo/base.go:455-484 | one raw call ends in the one result its failure, overflow or end demands, or goes on where it stopped |
| `Pagination.QueryFiltered` | dynamo/base.go:443-485 | a page covers exactly the matches between two positions, as the caller projects them, at most limit; its end and its cursor follow from what the last call answered, and the cursor is nil if and only if that call answered no key and was not cut; short with a cursor only after maxPages calls; which result, and after which calls, follows exactly from what the database did: its error if and only if the last call failed, lacks-key if and only if a cut met a nested key, never no-schema; for callers that use the reserved aliases all of it but the attributes shown and lacks-key |
| `Pagination.ChainListsPrefix` | dynamo/base.go:443-485 | after any number of pages, everything before the cursor is listed once, in order |
| `Pagination.ChainListsAll` | dynamo/base.go:443-485 | following the cursor from nil to nil lists the whole filtered partition and takes at most one page more than there are items |
| `Pagination.NextPage` | dynamo/base.go:443-485 | an error of the database's if and only if the last raw call made failed, none before it did; the page ends where the last call, or the cut, ends |
| `Pagination.ListAll` | dynamo/base.go:443-485 | following the cursor from nil terminates, with the whole filtered partition unless a raw call failed (if and only if the last one made did) or a nested key was met |
| `Pagination.QueryThreeItems` | dynamo/base.go:461-472 | for every key schema and projection a query that is cut: it lacks its key if and only if a key is nested, and pages otherwise |
| `Versioned.BuildUpdateExpr` | dynamo/base.go:114-142 | on every item the built expression evaluates to the requested updates: values set, nils removed, the rest untouched; its value tokens are exactly those of the attributes set |
| `Versioned.MergeNames` | dynamo/conditional.go:96-101 | the union, unless and only unless a token would stand for two attributes |
| `Versioned.MergeValues` | dynamo/conditional.go:102-107 | the union, unless and only unless a token is in use already |
| `Versioned.MergeKeepsMeaning` | dynamo/conditional.go:92-107 | with the condition's tokens merged in, the clauses still are exactly the requested updates |
| `Versioned.Prepare` | dynamo/conditional.go:92-107 | a clash if and only if the item read has a version and the update sets expected_version; otherwise the expression does the update and the condition is met exactly by items with the version read |
| `Versioned.MutationMeans` | dynamo/conditional.go:176-200 | said of the caller's function and the two items only: the version goes up by one, every other attribute is what the function set, gone if it removed it, as before otherwise; nothing is applied if and only if the version is unreadable or NULL, the function refused or changed nothing, or tokens clash |
| `Versioned.OnlyNewestPasses` | dynamo/conditional.go:149-210 | a copy from the item's history passes the version condition if and only if it is the newest and its version is not NULL |
| `Versioned.StepKeepsInv` | dynamo/conditional.go:84-210 | every step of every writer keeps each version explained by one mutation of its predecessor |
| `Versioned.NoLostUpdates` | dynamo/conditional.go:149-210 | for any interleaving, stale reads and transaction conflicts, each version of the item is what one mutation makes of the one before (MutationMeans), the item is the fold of all applied, and its version the initial one plus their number |
| `Versioned.ConflictWithoutRace` | dynamo/conditional.go:36-38 | for any number of attempts, a run that ends in a version conflict although after the writer began it alone acted and nobody wrote |
| `Versioned.NullNeverPasses` | dynamo/conditional.go:149-210 | over a NULL version, fresh reads and no other writer still exhaust any number of attempts |
| `Versioned.Row.ConditionalUpdate` | dynamo/conditional.go:84-134 | applied: the mutation is the newest and computed from the item it replaced; token clash if and only if it sets the token the condition needs; an error if and only if its last write was not evaluated; refused only over a version no longer newest, or NULL; else nothing of this caller written |
| `Versioned.Row.Attempt` | dynamo/conditional.go:163-203 | one read and guarded write; every outcome has its reason in what was read or in a failed write; refused after a fresh read means someone else committed |
| `Versioned.Row.UpdateVersioned` | dynamo/conditional.go:149-210 | Applied if and only if exactly one mutation of this caller was committed, and then the newest item is what the function makes of the one before it; every other outcome is accounted for by the last read or the last write; Conflict takes all attempts, each over a version no longer newest or NULL, and unless NULL at least as many commits by others as fresh reads |
| `TtlCache.RoomBounds` | ttlcache/ttlcache.go:50-65 | storing never exceeds a positive capacity and never alters another key's entry |
| `TtlCache.RoomKeeps` | ttlcache/ttlcache.go:50-65 | an entry goes only when the table is full of other keys, and a live one only when it is full of live ones |
| `TtlCache.Cache.Get` | ttlcache/ttlcache.go:35-45 | the value if live, else nothing and the dead entry is gone |
| `TtlCache.Cache.Set` | ttlcache/ttlcache.go:50-65 | at capacity the expired go, else everything, then the entry stands with its expiry; the capacity holds |
| `TtlCache.Cache.DropExpired` | ttlcache/ttlcache.go:50-65 | exactly the live entries stay, unchanged |
| `TtlCache.Cache.Delete` | ttlcache/ttlcache.go:68-72 | the key is gone, nothing else changes |
| `ReadThrough.StepKeepsInv` | authguard/cache.go:86-147 | every atomic section keeps: cached values, registered calls and waiting Gets only refer to loads begun after the last relevant Forget |
| `ReadThrough.RunKeepsInv` | authguard/cache.go:86-147 | every reachable state satisfies it |
| `ReadThrough.FreshAfterForget` | authguard/cache.go:86-147 | a Get that starts after Forget(key) returned yields only a value whose load began after that Forget, from the cache or a joined call |
| `ReadThrough.OneLoadPerKey` | authguard/cache.go:90-97 | at most one load running for a key was registered since its last Forget |
| `ReadThrough.FinishingKeepsOthers` | authguard/cache.go:120-127 | a finishing load never removes another call's registration |
| `CacheHits.StoredIffUnforgotten` | authguard/cache.go:108-129 | a successful load is in the cache when done, with its expiry, if and only if no Forget took effect since it was registered |
| `CacheHits.AnsweredFromCache` | authguard/cache.go:86-129 | in every run: once stored, and until it expires, a Get is answered with exactly what that load returned, unless a Forget, an eviction, a newer load or a clock past its expiry displaced it |
| `CacheHits.MissWaitsForARunningLoad` | authguard/cache.go:86-129 | a Get that misses waits for a load of its key that has not ended, and starts one if and only if none is registered |
| `ReadThrough.Cache.FastPath` | authguard/cache.go:86-89 | answers a live entry and leaves calls and generation alone |
| `ReadThrough.Cache.JoinCall` | authguard/cache.go:90-97 | joins the registered call, or registers a new one and must start a load under the current generation |
| `ReadThrough.Cache.Finish` | authguard/cache.go:120-127 | unregisters only itself, stores a successful value only if no Forget happened since the call began |
| `ReadThrough.Cache.Forget` | authguard/cache.go:141-147 | the generation grows, the entry and the registration go |
| `Idempotency.ValidKey` | idempotency/middleware.go:224-234 | true if and only if one to 128 visible ASCII characters |
| `Idempotency.MemKeyInjective` | idempotency/store.go:80 | scope and key are recovered from the joined key whatever the scope holds, as no valid key has a NUL |
| `Idempotency.MemoryStore.Claim` | idempotency/store.go:82-102 | a live entry answers conflict, in progress or its record and stays; otherwise the claim is held until the lease ends |
| `Idempotency.MemoryStore.Complete` | idempotency/store.go:104-112 | the entry is the finished record until its TTL |
| `Idempotency.MemoryStore.Release` | idempotency/store.go:114-122 | a finished record stays, an unfinished claim goes, no other key changes |
| `Idempotency.DynamoStore.Claim` | idempotency/dynamo.go:61-100 | the conditional put, and the answer read from the row that refused it, or in progress when that row is gone |
| `Idempotency.DynamoStore.Complete` | idempotency/dynamo.go:102-109 | the row is the record with its whole-second expiry |
| `Idempotency.DynamoStore.Release` | idempotency/dynamo.go:111-125 | an answered row stays, a row that is still a claim goes, no other row changes |
| `Idempotency.RoundUpBounds` | idempotency/dynamo.go:52-59 | a row is freed strictly after the asked expiry and at most one second later |
| `Idempotency.StepAgrees` | idempotency/dynamo.go:52-125 | from agreeing states both stores give the same answer and agree again, TTL deletion included |
| `Idempotency.DynamoSimulatesMemory` | idempotency/dynamo.go:52-125 | over every history the answers equal the in-memory store's with durations rounded up to the second; physical deletions are unobservable |
| `Idempotency.FeedHash` | idempotency/middleware.go:238-247 | the loop feeds each part and a NUL, in order |
| `Idempotency.PreimageInjective` | idempotency/middleware.go:238-247 | with NUL-free method, path and query, equal bytes mean equal requests |
| `Idempotency.SharedIffNul` | idempotency/middleware.go:238-247 | a request shares its bytes with a different one if and only if some part holds a NUL |
| `IdempotencyRun.Middleware.Before` | idempotency/middleware.go:128-179 | which requests reach the store and what it answers, refusals being conflict or in progress, and for each other outcome (passed through, key required, key invalid, scope unresolved, unavailable) exactly when |
| `IdempotencyRun.Middleware.After` | idempotency/middleware.go:181-222 | a recordable answer is stored, anything else gives the claim back, an unreachable store leaves it to the lease |
| `IdempotencyRun.AnswerThenRetry` | idempotency/middleware.go:128-222 | a request that ran, then its retry: a 2xx, or a 4xx other than the seven that depend on who or when, within the size limit comes back verbatim until its TTL and is refused to another request; any other end lets the retry run |
| `IdempotencyRun.OneHandlerPerKey` | idempotency/middleware.go:128-208 | with the key's own handlers within their lease, at most one of that key is ever in flight |
| `IdempotencyRun.DoubledMeansLate` | idempotency/middleware.go:128-208 | two handlers of a key in flight mean that one of that key was late, at that point or earlier in the run |
| `IdempotencyRun.AnsweredIsReplayed` | idempotency/middleware.go:128-208 | an answer stored by step n is, at every later point before its TTL, replayed exactly to the same hash and refused to another, and no handler runs |
| `IdempotencyRun.AnswerStays` | idempotency/store.go:82-112 | an answer stored by step n is the key's answer at every later point before its TTL |
| `IdempotencyRun.UnrecordedEndKeepsAnswers` | idempotency/store.go:114-122 | a handler that ends without recording, late or not, leaves every finished entry of every key as it is |
| `IdempotencyRun.AnswersHold` | idempotency/store.go:82-122 | in every run, late handlers included, a recorded answer stands in the store until its TTL |
| `IdempotencyRun.ReplayedUnlessReplaced` | idempotency/middleware.go:128-208 | in every run, late handlers included, an answer is replayed exactly, or refused to another request, until its TTL, unless a handler of its key recorded another one since |
| `IdempotencyRun.RunningIsProtected` | idempotency/middleware.go:128-208 | while a handler runs the same request is told to wait, another is refused, neither runs |
| `IdempotencyRun.SecondStartsIffLate` | idempotency/store.go:82-122 | in every run, a handler beside which none of its key ended with the store in reach owns its claim within its lease, and a further request finds or starts a second one beside it if and only if it is late |
| `IdempotencyRun.LateRunExists` | idempotency/store.go:82-102 | for every lease there is a run with two handlers for one key |
| `IdempotencyRun.LateReleaseDoubles` | idempotency/store.go:114-122 | for every positive lease, a run in which a late handler's release leaves two handlers in flight that are both within their lease |
| `IdempotencyRun.RunMirrors` | idempotency/dynamo.go:52-125 | requests over the DynamoDB store, with deletions of expired rows at any time, run if and only if they run over the in-memory store with expiries rounded up, with the same handlers and answers |
| `IdempotencyRun.OneHandlerPerRow` | idempotency/dynamo.go:61-125 | with the key's own handlers within their lease, at most one of that key in flight over the DynamoDB store, deletions and whole seconds included |
| `IdempotencyRun.DoubledRowsMeanLate` | idempotency/dynamo.go:61-125 | two handlers of a key over the DynamoDB store mean that one of that key was late, at that point or earlier |
| `IdempotencyRun.AnsweredRowIsReplayed` | idempotency/dynamo.go:61-109 | an answer stored there by step n is, until its TTL, replayed exactly or refused to another hash, or the request is told to wait when the refusing row is gone; no handler runs |
| `IdempotencyRun.RowReplayedUnlessReplaced` | idempotency/dynamo.go:61-125 | the same over the DynamoDB store, or told to wait when the refusing row is gone |
| `IdempotencyRun.SecondRowStartsIffLate` | idempotency/dynamo.go:61-125 | over the DynamoDB store too, a second handler beside one that none of its key ended beside if and only if that one is late |
| `IdempotencyRun.LateReleaseDoublesRows` | idempotency/dynamo.go:111-125 | over the DynamoDB store too, a late release leaves two handlers in flight within their lease |
| `Lock.MemStore.TrySet` | lock/lock.go:248-256 | taken if and only if no live entry stands |
| `Lock.MemStore.TryRenew` | lock/lock.go:258-267 | extends only the entry with this token that has not expired |
| `Lock.MemStore.Del` | lock/lock.go:269-276 | removes only the entry with this token |
| `Lock.MutualExclusion` | lock/lock.go:70-148 | two unexpired, unreleased acquires of a key are the same one, in every run |
| `Lock.HoldersAreUndisturbed` | lock/lock.go:70-148 | while held, no step but the holder's own changes the entry, late renews and releases included, and every other acquire fails |
| `Lock.HoldersMayRenewAndRelease` | lock/lock.go:133-148 | the holder's renew succeeds and its release frees the key |
| `Lock.AcquiredIffFree` | lock/lock.go:70-95 | in every run an acquire gets the key, for the whole TTL, if and only if nobody holds it; a refusal changes nothing |
| `Lock.RenewedIffNewest` | lock/lock.go:133-148 | in every run a renew succeeds if and only if its acquire was the last of the key, not released, and its expiry has not passed; a release frees the key if and only if its acquire was the last of it |
| `Lock.Locker.Acquire` | lock/lock.go:70-95 | fails if and only if the store fails or a live entry stands; a success stores a token never used before |
| `Lock.Locker.Release` | lock/lock.go:89-94 | removes its own entry only, unless the store fails, and forgets the key either way |
| `Lock.Locker.Renew` | lock/lock.go:133-148 | fails without a local token or when the store fails, otherwise is the store's compare-and-renew |
| `Lock.SortKeys` | lock/lock.go:103-106 | sorted, and the same keys |
| `Lock.Locker.AcquireOrdered` | lock/lock.go:103-126 | exactly what the store granted: every key in sorted order, each standing until its expiry, or a stop at the first key whose call failed or that the store refused over a live entry, with every lock granted gone again unless its delete failed, and its local tokens forgotten; how many store calls on each outcome; others act throughout |
| `Lock.Locker.ReleaseAll` | lock/lock.go:107-112 | no entry with one of the tokens is left unless the store failed its delete, others acting throughout |
| `Lock.RepeatIffLapsed` | lock/lock.go:103-126 | a key named twice is found live if and only if an earlier lease of the call still runs, when nobody else holds it |
| `Lock.ReleaseThenRenew` | lock/lock.go:89-148 | a late release never frees a newer lock; Renew then succeeds if and only if it was for another key and the store does not fail |
| `Lock.LateReleaseForgets` | lock/lock.go:70-148 | for every ttl: acquire, lapse, acquire again, late release, and Renew fails although the newer lock is held |
| `Breaker.HostBreaker.TryAdmit` | resilient/resilient.go:197-225 | the new fields and answer are the specification's; WhatACallMeets says what it means |
| `Breaker.HostBreaker.Fold` | resilient/resilient.go:228-253 | likewise for a recorded result; HowStatesChange and CooldownLaw say what it means |
| `Breaker.HostBreaker.GiveUp` | resilient/resilient.go:257-264 | likewise for a cancelled probe |
| `Breaker.OneProbe` | resilient/resilient.go:161-264 | at most one probe is outstanding; probing holds exactly while it is, and only half-open |
| `Breaker.CooldownLaw` | resilient/resilient.go:228-253 | after n failed probes since the last close the cooldown is Cooldown times 2^n capped at MaxCooldown, and an open circuit cools down until exactly that long after it opened |
| `Breaker.WhatACallMeets` | resilient/resilient.go:197-225 | in every run: closed, admitted; open, refused with exactly the time left until the cooldown after its opening is over, and from then on admitted as the probe; half-open, refused for a second while probed, else admitted as the probe |
| `Breaker.HowStatesChange` | resilient/resilient.go:228-264 | which results open or close the circuit, for every step of every run, and that none else does |
| `Breaker.OpensOnStreak` | resilient/resilient.go:228-253 | closed if and only if no probe failed since and the counted outcomes end in fewer failures than the threshold |
| `Breaker.RefusedExactly` | resilient/resilient.go:197-225 | a call is refused if and only if the circuit cools down or another call probes |
| `Breaker.NeverStuck` | resilient/resilient.go:197-264 | with no probe outstanding, a call after a full cooldown is admitted |
| `Breaker.RetryAfterIsExact` | resilient/resilient.go:197-225 | while cooling down, a call after a wait is admitted if and only if the wait reaches retryAfter |
| `Bucket.Limiter.TryTake` | ratelimit/bucket.go:49-74 | the new table and answer are the specification's, bypass included |
| `Bucket.Limiter.DropIdle` | ratelimit/bucket.go:77-83 | exactly the buckets that would be full are gone |
| `Bucket.DroppingIsUnobservable` | ratelimit/bucket.go:49-83 | a key that never meets a full table is answered as if it had a bucket of its own forever |
| `Bucket.TokensAreConserved` | ratelimit/bucket.go:49-74 | tokens spent since s plus tokens left never exceed burst plus what was earned |
| `Bucket.RateIsBounded` | ratelimit/bucket.go:49-74 | at most burst + rate * (t - s) admissions in any interval [s, t] |
| `Bucket.AdmittedIffWithinBudget` | ratelimit/bucket.go:49-74 | a call of a key that never meets a full table is admitted if and only if, since no earlier call of the run, it would make the admissions exceed burst plus rate times the time since |
| `Bucket.BypassedIffCrowded` | ratelimit/bucket.go:49-83 | a call is let through uncounted if and only if its key is new and as many others as the table may hold are not full again |
| `Bucket.TableIsBounded` | ratelimit/bucket.go:49-83 | in every run the table stays within MaxKeys |
| `Bucket.RetryAfterIsExact` | ratelimit/bucket.go:49-83 | in every run, for a key that never meets a full table and only other keys calling in between, the next call is admitted if and only if it comes retryAfter after the refusal or later |
| `Counter.MemoryCounter.Increment` | ratelimit/counter.go:142-152 | counts up, in a new window only when the old one is over |
| `Counter.MemoryCounter.Read` | ratelimit/counter.go:154-162 | the count of a window that is not over, else zero |
| `Counter.MemoryCounter.Left` | ratelimit/counter.go:59-67 | the time left, never negative |
| `Counter.MemoryCounter.Delete` | ratelimit/counter.go:69-74 | the key is gone, nothing else changes |
| `Counter.Limiter.Take` | ratelimit/ratelimit.go:92-101 | counts and allows up to Max; a broken store follows the fail mode |
| `Counter.Limiter.CheckFailures` | ratelimit/ratelimit.go:106-115 | denies from Max failures on, counting nothing |
| `Counter.Limiter.RecordFailure` | ratelimit/ratelimit.go:120-123 | counts one failure |
| `Counter.EachWindowAdmitsMax` | ratelimit/ratelimit.go:92-101 | over any run, at most Max per window opened plus one current window |
| `Counter.TakesAreBounded` | ratelimit/ratelimit.go:92-101 | at most 2 * Max allowed in any span of length Window, and Max if no window opens in it |
| `Counter.EntryIsExact` | ratelimit/counter.go:142-152 | told from the events alone: a key's window opens with its first event and then with the first one later than a whole window; its count is the events since, its expiry a window after |
| `Counter.AllowedIffAmongFirst` | ratelimit/ratelimit.go:92-101 | an event is allowed if and only if it is among the first Max of its window |
| `Counter.DeniedIffMaxRecorded` | ratelimit/ratelimit.go:106-115 | CheckFailures denies if and only if Max failures or more were recorded in a window that is not over, or Max is not positive; the time left is what remains of that window |
| `Lockout.KeysApart` | ratelimit/lockout.go:35-40 | failure and block keys never collide, nor do those of two ids |
| `Lockout.Guard.Check` | ratelimit/lockout.go:45-61 | denies if and only if a block is counted, with the time left, or BlockFor when that cannot be read; a store that cannot count follows the fail mode |
| `Lockout.Guard.Fail` | ratelimit/lockout.go:66-76 | counts, and sets the block exactly from the threshold on; what is stored and answered when either increment fails |
| `Lockout.Guard.Reset` | ratelimit/lockout.go:80-82 | only the failure count goes |
| `Lockout.Guard.Unblock` | ratelimit/lockout.go:85-90 | the block and the count go |
| `Lockout.BlockLastsExactly` | ratelimit/lockout.go:45-90 | a block in force denies through its start plus BlockFor, unextended by failures and unlifted by resets, unless unblocked |
| `Lockout.DeniedIffWithinBlock` | ratelimit/lockout.go:45-90 | in every run, denied if and only if a block that was not lifted began no more than BlockFor ago, for exactly the time left of it |
| `Lockout.ThresholdBlocks` | ratelimit/lockout.go:66-76 | a failure calls for a block if and only if it is at least the Threshold-th since its window opened or was reset; setting it denies the id from then on, and an earlier block still in force stays as it is |
| `Lockout.BlocksAreEarned` | ratelimit/lockout.go:66-76 | whoever is denied failed at least Threshold times: in as many different steps of the run, within one Window, with no reset in between and before the block began, concurrent Fail calls included |
| `KeyEncoding.FeedHash` | resilient/retry.go:184-190 | the loop feeds each part with its decimal length and a colon |
| `KeyEncoding.PreimageInjective` | resilient/retry.go:184-190 | equal bytes mean equal lists, for all lists of arbitrary strings |
| `Base64.RawURLRoundTrip` | dynamo/cursor.go:117-123 | unpadded URL base64 (section 5 of RFC 4648) decodes to what was encoded |
| `Base64.RawURLIsUrlSafe` | dynamo/cursor.go:117-123 | it only uses letters, digits, minus and underscore |
| `Base64.StdRoundTrip` | dynamo/cursor.go:79-115 | padded standard base64 (section 4 of RFC 4648) decodes to what was encoded |
| `Cursor.KeyToPlain` | dynamo/cursor.go:79-94 | the typed plain form of every attribute, if and only if all are S, N or B |
| `Cursor.PlainToKey` | dynamo/cursor.go:96-115 | the key back, if and only if every type tag is known and every binary decodes |
| `Cursor.PlainRoundTrip` | dynamo/cursor.go:79-115 | the plain form of a key reads back as that key |
| `Cursor.WireIsSound` | dynamo/cursor.go:117-158 | with a lossless JSON codec, every payload survives base64 and JSON and is never the empty cursor |
| `Cursor.EncodeCursor` | dynamo/cursor.go:134-143 | the cursor CursorRoundTrip is about |
| `Cursor.DecodeCursor` | dynamo/cursor.go:165-178 | start, key or invalid, as the decoding specification says |
| `Cursor.CursorRoundTrip` | dynamo/cursor.go:134-178 | no cursor if and only if the key is empty or holds a non-key attribute; decoding gives back every other key to its owner and refuses an owner with another tag |
| `Cursor.OnlyEmptyStartsOver` | dynamo/cursor.go:145-178 | only the empty cursor means the start; any other gives a non-empty key and was issued for this owner, or is refused |
| `Cursor.NewPageWithPrevious` | dynamo/cursor.go:215-242 | the envelope PreviousLeadsBack and EveryWalkStaysInStep are about |
| `Cursor.AskedCarriesTwoKeys` | dynamo/cursor.go:215-242 | at any depth of a forward walk the cursor carries its own key and at most the one before |
| `Cursor.PreviousLeadsBack` | dynamo/cursor.go:215-242 | on every page, the last included: from the third on the previous cursor decodes to the start key of the page before; the first two have none |
| `Cursor.EncodedOffersNoPrevious` | dynamo/cursor.go:134-242 | a cursor of a list that pages forward only gives no way back |
| `Cursor.EveryWalkStaysInStep` | dynamo/cursor.go:215-242 | however a client follows the cursors forward and back, the cursor it holds decodes to the start of the page it thinks it reads; next is offered up to the last page, previous if and only if it is the third or later and was reached going forward |
| `Cursor.NullPreviousMeansSecondPage` | dynamo/cursor.go:208-242 | has_previous without a previous cursor means the second page if and only if the client did not come back to the third or a later one |
| `Cursor.BackTwiceIsLost` | dynamo/cursor.go:215-242 | forward three times and back once: the third page then looks like the second |

## Left out

- AWS, Valkey, SQS and HTTP calls: environment choices only; `redisStore` and `ValkeyCounter` are thin wrappers over servers that are not part of this model.
- Ambiguous outcomes (a write applied but reported failed): outcomes are taken as truthful.
- DynamoDB's TTL deletion of erasure records, which forgets SeqNS: records are kept forever in the runs (`RememberedLongEnough` says when the table may let go of one). For idempotency rows deletion is modelled.
- `Store.Blocked`'s in-memory answer in erasure/state.go, the OnLock and OnFailure hooks, the visibility heartbeat and the data exporter.
- Message decoding: `ValidMessage` keeps only the checks later steps rely on (request id, sub, services).
- ErasureStore.Participant.RunLoop: takes any finite list of polls instead of long-polling until cancellation, so it says nothing about time between receives beyond the idle sleeps.
- Pagination.QueryFiltered: paths of a projection come split into first token and remainder, and the partition does not change during a listing; for a caller that uses the `#__ctech_cursor_key` aliases, which attributes a page shows and whether a cut lacks its key is not said (`WidensIffNotCaptured` says when they can go wrong); the order `sortedKeys` gives the key names has no effect otherwise and is not modelled.
- Pagination.StripInjected: works on item values, so deletion in place in the shared item maps is not captured.
- Versioned.Row.ConditionalUpdate: only with the condition UpdateVersioned sends, though tokens are merged for any; versions are unbounded integers.
- Versioned.BuildUpdateExpr: clauses are token pairs; the joined expression text, and attribute names that make no valid token, are not modelled.
- Versioned.NoLostUpdates: all writers go through UpdateVersioned and nothing deletes the item.
- Idempotency.DynamoSimulatesMemory: a refused put returns the refusing row; `DynamoStore.Claim` and `AnsweredRowIsReplayed` include the branch for a missing one.
- IdempotencyRun.OneHandlerPerKey: the run is fail-closed; a fail-open pass-through runs the handler without a claim (`Middleware.Before` says exactly when).
- Breaker.CooldownLaw: durations are unbounded, so the doubling cannot overflow.
- Bucket.RetryAfterIsExact: exact over `real`; floating-point rounding and the truncation to nanoseconds are not modelled.
- Bucket.RateIsBounded: clock readings are in order although the source reads the clock before taking the mutex.
- ReadThrough.Cache.Forget: invalidation hooks are not modelled.
- Lockout.KeysApart: for one Lockout; prefixes that make two differently configured limiters share a key are not excluded by the source and not modelled.
- SHA-256, JSON and random tokens: a tag function, a lossless codec and never-repeated tokens.
- `NewPage`, `ParseLimit` and the retry transport's attempt loop: easy members.
- Every other package of the repository (supervision, shutdown, websockets, tokens, validation, mail, health, observability and the rest).
