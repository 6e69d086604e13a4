# go-redisson lock core in Dafny

A model of the reentrant Redis lock of go-redisson (package `go_redisson`) and the proofs of its properties.

A lock is one Redis hash per lock key. The hash maps an owner token (`uuid:goroutineId`) to a reentrancy count, and the whole hash has one expiry. Two Lua scripts act on that hash atomically:

- the acquire script creates the hash, counts up a reentrant acquire, or reports the remaining time to live;
- the release script counts down, and on the last release deletes the hash and publishes a wake message on `publish-lock-channel:<key>`.

`TryLock` acquires, waits on the wake channel when the key is held by someone else, and retries until its wait budget runs out. `Entry` is the local bookkeeping of which goroutines hold a key, with a reenter count per goroutine.

Modules, one per source concern:

- `Goroutines` (goroutines.dfy): the goroutine id, a Go `uint64`.
- `Tokens` (tokens.dfy): the owner token and the wake channel name. The token's decimal part parses back to the goroutine id, and tokens are injective.
- `Entries` (entry.dfy): the class `Entry` with its field `goroutineIds`, the Go `GoroutineID` map, updated in place. The pure maps `Added` and `Removed` specify the two updates; they carry the round-trip and invariant lemmas.
- `LockScripts` (lock_scripts.dfy): the net effect of each script on a store value (`AcquireEffect`, `ReleaseEffect`). It also holds the store invariant (one owner, counts ≥ 1, a lease), mutual exclusion, and the round trip of N acquires then N releases.
- `LockStore` (lock_store.dfy): the class `Store` with the Redis commands the scripts use (`HINCRBY`, `PEXPIRE`, `DEL`, `PUBLISH`, `EXISTS`, `HEXISTS`, `PTTL`). The scripts run there command by command, and each is proved to have the effect given in `LockScripts`.
- `LockClient` (lock_client.dfy): `Rlock`, `tryAcquire`, `tryAcquireInner` and `UnLock` on a `Store`.
- `TryLocking` (try_lock.dfy): the `TryLock` loop. It runs over a finite trace of what each round observed: the acquire reply, the clock advance, and whether a message arrived. It is proved equal to the recursive specification `Attempts`, and lemmas give that specification its meaning: when it succeeds, when it times out, and which deadlines it arms.

## Deviations from the code as written

The two scripts are modelled as their comments (lock.go:17, 23, 29, 34, 38) describe them, not as the literal Lua:

- lock.go:18 reads `redis.call('exists', 'KEYS[1]' == 0)`. The `== 0` sits inside the call, and `'KEYS[1]'` is a quoted string rather than the key. The model uses the evident intent: `redis.call('exists', KEYS[1]) == 0`. The line also leaves the `(` after `if` unclosed, so the literal script is not valid Lua; and even with it closed, `'KEYS[1]' == 0` is the boolean `false`, which `redis.call` does not accept. As written, every run of the acquire script fails, `tryAcquire` returns that error, and `TryLock` returns it (lock.go:69-71). The modelled intent replaces a script that never runs.
- lock.go:20 and lock.go:26 call `hexpire` with two arguments. The model uses `pexpire KEYS[1] ARGV[1]`, as the release script does at lock.go:41. This sets the lease of the whole hash in milliseconds.
- The final `return 0` of the release script (lock.go:48) cannot be reached; both branches above it return.

Behaviour of lock.go that the model keeps:

- The code has no renew script and no watchdog. The success branch of `tryAcquire` (lock.go:146-149) is empty.
- When `ReceiveMessage` fails (the subscription is closed by a deadline timer), `TryLock` returns "retry lock failed: wait time running out" (lock.go:88-92, 115-128). It does not retry the acquire.
- The first wait uses the whole remaining budget as its deadline (lock.go:84). Only the waits inside the `for` loop use the smaller of the TTL hint and the budget (lock.go:111-129).
- `UnLock` discards the release script's result (lock.go:167-171). A release by a non-owner is therefore silent.
- When the key is held by another owner, the acquire script returns `pttl` itself. Under the store invariant this is the positive lease; for a hash without expiry Redis would return -1, which the caller would read as success.

## Model

| member | source | states |
|---|---|---|
| Tokens.Decimal | lock.go:155 | The `%d` rendering of a goroutine id is a non-empty string of decimal digits, with no leading zero unless the id is 0 |
| Tokens.ParseDecimalInverts | lock.go:155 | Reading the decimal rendering back gives the original id |
| Tokens.OwnerToken | lock.go:155 | The owner token is the uuid, then `:`, then digits that parse back to the goroutine id |
| Tokens.OwnerTokenInjective | lock.go:166 | For colon-free client identities, two tokens are equal iff they come from the same uuid and the same goroutine, so acquire (line 155) and release (line 166) agree on the owner |
| Tokens.ChannelName | lock.go:165 | The wake channel is `publish-lock-channel:` followed by the key |
| Tokens.ChannelNameInjective | lock.go:83 | Distinct keys have distinct wake channels, and equal keys have equal ones |
| Entries.Added | entry.go:13-21 | Adding an absent id sets its count to 1; adding a present id raises its count by 1; every other id keeps its count; positive counts stay positive |
| Entries.Removed | entry.go:23-34 | Removing an absent id changes nothing; removing an id with count 1 deletes it; otherwise its count drops by 1; no other id changes; positive counts stay positive |
| Entries.Entry.constructor | entry.go:7-11 | `NewEntry` has an empty map, and `hasNoGoroutine` holds of it |
| Entries.Entry.AddGoroutineId | entry.go:13-21 | The map is updated in place to `Added` of the old map |
| Entries.Entry.RemoveGoroutineId | entry.go:23-34 | The map is updated in place to `Removed` of the old map |
| Entries.Entry.HasNoGoroutine | entry.go:36-38 | True iff the map is empty |
| Entries.AddThenRemoveRestores | entry.go:13-34 | Add then remove of the same id restores the original map exactly (for any map whose count for that id is not 0) |
| Entries.RemoveThenAddRestores | entry.go:13-34 | Remove then add of an id that is present restores the original map |
| Entries.AddedTimesCount | entry.go:13-21 | After k adds of g, g's count is its old count plus k, and every count stays positive |
| Entries.AddsThenRemovesRestore | entry.go:13-34 | k adds of g followed by k removes of g restore any map whose counts are positive |
| Entries.FreshEntryRoundTrip | entry.go:7-38 | On a fresh entry, k adds of g make it non-empty (k > 0), and k removes of g make it empty again |
| LockScripts.AcquireEffect | lock.go:16-31 | Absent key: creates `{token:1}` with the lease and returns -1. Held by `token`: count +1, same owners, lease reset, returns -1. Held by another: nothing changes and the hash's pttl is returned. On a well-formed store the result is negative iff the key was absent or held by `token`. Publishes nothing; other keys unchanged |
| LockScripts.ReleaseEffect | lock.go:33-49 | Returns 0, 1 or 2. It returns 0 iff `token` is not a field, and then nothing changes. On 1 the count drops by 1 and stays positive, and the lease is reset. On 2 the key is deleted and exactly one message (channel, payload) is published; otherwise nothing is published. Other keys unchanged |
| LockScripts.SoleOwner | lock.go:16-31 | In a well-formed hash, any owner field is the only field |
| LockScripts.AcquirePreservesWellFormed | lock.go:16-31 | The acquire script keeps every hash at exactly one owner with count ≥ 1 and a positive lease |
| LockScripts.ReleasePreservesWellFormed | lock.go:33-49 | The release script keeps every hash at exactly one owner with count ≥ 1 and a positive lease |
| LockScripts.AcquireExcludesOthers | lock.go:23-30 | After one owner's acquire succeeds, another owner's acquire changes nothing and returns the first owner's positive lease |
| LockScripts.ReleaseByStrangerIsNoOp | lock.go:34-37 | A release by anyone but the holder returns 0, changes no hash and publishes nothing |
| LockScripts.AcquireBySoleOwner | lock.go:23-27 | A reentrant acquire on `{token:c}` gives `{token:c+1}` with the new lease and returns -1 |
| LockScripts.AcquireTimesFromAbsent | lock.go:17-27 | n acquires by one owner on an absent key return -1 each and leave `{token:n}` with the lease; other keys and the message log are unchanged |
| LockScripts.ReleaseTimesFromCount | lock.go:38-47 | n releases of `{token:n}` return 1 n-1 times, then 2; they delete the key and publish exactly one message |
| LockScripts.ReentrantRoundTrip | lock.go:16-49 | N acquires then N releases by one owner, starting from an absent key, restore every hash. The acquires return -1, the first N-1 releases return 1, the Nth returns 2, and exactly one wake message is published |
| LockStore.Store.HIncrBy | lock.go:19 | HINCRBY returns the old field value (0 if missing) plus delta and stores it; it creates the hash without expiry if absent |
| LockStore.Store.PExpire | lock.go:41 | PEXPIRE sets the time to live of an existing key and does nothing to a missing one |
| LockStore.Store.Exists | lock.go:18 | EXISTS is true iff the key has a hash. False implies that no owner holds the key; on a well-formed store, true exactly when some owner holds it |
| LockStore.Store.HExists | lock.go:24 | HEXISTS is true iff the token holds the key; on a well-formed store that token is then the hash's only field |
| LockStore.Store.PTtl | lock.go:30 | PTTL is -2 for a missing key and the key's stored time to live otherwise (-1 for a hash without expiry); on a well-formed store that time is positive |
| LockStore.Store.Del | lock.go:44 | DEL removes the key |
| LockStore.Store.Publish | lock.go:45 | PUBLISH appends exactly one message to the log |
| LockStore.Store.Acquire | lock.go:16-31 | The acquire script, run command by command on the store, has exactly the effect and return value of `AcquireEffect` |
| LockStore.Store.Release | lock.go:33-49 | The release script, run command by command on the store, has exactly the effect and return value of `ReleaseEffect` |
| LockClient.LeaseFor | lock.go:137-151 | `tryAcquire(-1)` uses the watchdog lease of 30000 ms (`WatchdogTimeoutMs`, the `WATCHDOGTIMEOUT` of lock.go:12); any other lease passes through; a lease of -1 or a positive one yields a positive lease |
| LockClient.TryAcquireInner | lock.go:153-161 | Runs the acquire script on the key with the lease and this goroutine's owner token |
| LockClient.TryAcquire | lock.go:137-151 | Runs the acquire script with `LeaseFor(leaseTime)` |
| LockClient.UnLock | lock.go:163-172 | Runs the release script on the key and its wake channel, with this goroutine's token and the payload 1 |
| LockClient.LastUnlockWakesWaiters | lock.go:13-14 | When a goroutine holds its last reentry of a key, `UnLock` deletes the key and publishes exactly one message, the payload 1 (`PublishMessage`, lock.go:13) on `publish-lock-channel:<key>` (`PubSubChannel`, lock.go:14) |
| LockClient.GoroutinesExcludeEachOther | lock.go:153-161 | Two goroutines of one client never both hold a key: after one acquires, the other's acquire returns the 30000 ms lease |
| TryLocking.Attempts | lock.go:65-135 | The run never arms more timers than it has rounds |
| TryLocking.TryLock | lock.go:65-135 | The loop, with the budget `wTime*1000` ms, ends with the outcome and arms the deadlines that `Attempts` gives |
| TryLocking.Unroll | lock.go:97-134 | While every earlier round continues, the outcome is that of the later rounds with the budget reduced by the time they took |
| TryLocking.LockedIff | lock.go:68-105 | TryLock succeeds iff some acquire returns a negative result and every earlier round kept the loop going: TTL ≥ 0, budget still positive after the acquire, message received, budget still positive after the wait |
| TryLocking.SuccessLocks | lock.go:97-105 | If an acquire takes the lock and every earlier round kept the loop going, TryLock returns nil |
| TryLocking.LockedNeedsSuccess | lock.go:68-105 | TryLock returns nil only after an acquire with a negative result, with every earlier round having kept the loop going |
| TryLocking.BudgetExhaustedFails | lock.go:77-133 | Once the budget left is ≤ 0 or a wait ends without a message, TryLock fails with a timeout. It is "get lock failed" iff the first acquire already used up the budget, and "retry lock failed" otherwise |
| TryLocking.DeadlinesWithinBudget | lock.go:84-129 | Every timer deadline lies between 0 and the budget left. The first wait uses the whole budget; every later wait uses the smaller of the TTL hint and the budget |
| TryLocking.NoWaitFailsAtOnce | lock.go:77-80 | With no budget, a first acquire that finds the key held fails with "get lock failed" and arms no timer |

## Left out

- The Redis client: `Script.Run` transport, `Subscribe`, `ReceiveMessage`, `Close` and delivery of published messages (lock.go:83-88, 156, 167). A publish is one entry appended to the store's message log.
- `time.Now` and `time.AfterFunc` (lock.go:67, 84, 112, 121). In `TryLock` the clock advances, the receive outcomes and the acquire replies are inputs. A timer armed in an earlier round may still close the subscription later; that shows up only through the receive outcome of the input.
- TryLocking.TryLock: the rounds are a finite sequence. A run that outlasts them ends as `TraceEnded`, where the Go loop would keep going.
- TryLocking.TryLock: `wTime * 1000` and the `int64` arithmetic on `waitTime` are unbounded here; Go's 64-bit overflow is not modelled.
- `uuid.New()` (lock.go:61) and `delayqueue.GetGoroutineID()` (lock.go:154, 164) are foreign and nondeterministic. The client identity is a field of `Rlock`, and the goroutine id is a parameter.
- The passage of time and key expiry. A hash's `pttl` is the lease last set on it and does not count down.
- LockStore.Store.Acquire: requires a positive lease. Redis deletes a key given a non-positive PEXPIRE, which is not modelled. Every call site in lock.go passes a positive lease.
- LockStore.Store.Release: requires a positive lease, for the same reason.
- LockClient.TryAcquire: requires the lease to be -1 or positive, for the same reason. The only caller in lock.go passes -1.
- LockClient.UnLock: the lease handed to the release script is a parameter. lock.go:167 passes the `time.Duration` `WATCHDOGTIMEOUT`, and how the Redis client turns it into a number is not modelled.
- Errors of the Redis client, such as `tryAcquire` returning `0, err` (lock.go:143-145, 157-159). The modelled store never fails; `TryLock` receives client errors as `Failure` replies.
- Entries.Added: the Go `int` count wraps at 2^63-1; here counts are unbounded.
- The watchdog, the renew script and a registry of entries: none exists in lock.go or entry.go.
- Concurrency between goroutines and processes. Each script is atomic in Redis, so it is one step here; `Entry` is not synchronised in the source and is modelled sequentially.
- lock_test.go: it needs a live Redis, and it calls `InitRlock` and `GetLock`, which lock.go does not define.
