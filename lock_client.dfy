/**
 * The lock handle of lock.go: `Rlock`, `tryAcquire`, `tryAcquireInner` and
 * `UnLock`, running the two scripts on a Store. The goroutine id, which the
 * source reads from the runtime, is a parameter.
 */
module LockClient {
  import opened Goroutines
  import opened Tokens
  import opened LockScripts
  import opened LockStore

  /** `WATCHDOGTIMEOUT.Milliseconds()`: 30 seconds. */
  const WatchdogTimeoutMs: int := 30 * 1000
  /** `PUBLISHMESSAGE`: the payload of the wake message. */
  const PublishMessage: int := 1

  /** `Rlock`: the lock key and the client identity chosen once by `InitRLock`. */
  datatype Rlock = Rlock(key: string, uuid: string)

  /** The lease `tryAcquire` hands to the acquire script: -1 asks for the watchdog lease. */
  function LeaseFor(leaseTime: int): (lease: int)
    ensures leaseTime == -1 ==> lease == WatchdogTimeoutMs
    ensures leaseTime != -1 ==> lease == leaseTime
    ensures leaseTime == -1 || leaseTime > 0 ==> lease > 0
  {
    if leaseTime != -1 then leaseTime else WatchdogTimeoutMs
  }

  /** `tryAcquireInner` (lock.go:153-161): the acquire script under this goroutine's token. */
  method TryAcquireInner(l: Rlock, store: Store, gid: GoroutineId, leaseTime: int) returns (ttl: int)
    requires leaseTime > 0
    modifies store
    ensures Reply(store.State(), ttl) == AcquireEffect(old(store.State()), l.key, leaseTime, OwnerToken(l.uuid, gid))
  {
    var lockHashKey := OwnerToken(l.uuid, gid);
    ttl := store.Acquire(l.key, leaseTime, lockHashKey);
  }

  /** `tryAcquire` (lock.go:137-151). */
  method TryAcquire(l: Rlock, store: Store, gid: GoroutineId, leaseTime: int) returns (ttl: int)
    requires leaseTime == -1 || leaseTime > 0
    modifies store
    ensures Reply(store.State(), ttl) == AcquireEffect(old(store.State()), l.key, LeaseFor(leaseTime), OwnerToken(l.uuid, gid))
  {
    if leaseTime != -1 {
      ttl := TryAcquireInner(l, store, gid, leaseTime);
      return;
    }
    ttl := TryAcquireInner(l, store, gid, WatchdogTimeoutMs);
  }

  /**
   * `UnLock` (lock.go:163-172): the release script under this goroutine's
   * token, on the key's wake channel; the script's code is not returned.
   */
  method UnLock(l: Rlock, store: Store, gid: GoroutineId, renewLease: int)
    requires renewLease > 0
    modifies store
    ensures store.State() == ReleaseEffect(old(store.State()), l.key, ChannelName(l.key),
      OwnerToken(l.uuid, gid), renewLease, PublishMessage).after
  {
    var publishChannel := ChannelName(l.key);
    var lockHashKey := OwnerToken(l.uuid, gid);
    var _ := store.Release(l.key, publishChannel, lockHashKey, renewLease, PublishMessage);
  }

  /**
   * The wake message of the last release: a goroutine that holds its last
   * reentry of a key frees it with `UnLock` and publishes the payload 1 on
   * `publish-lock-channel:<key>`, exactly once.
   */
  lemma LastUnlockWakesWaiters(b: Backend, l: Rlock, gid: GoroutineId, renewLease: int)
    requires renewLease > 0 && WellFormed(b)
    requires HeldBy(b, l.key, OwnerToken(l.uuid, gid)) && b.locks[l.key].owners[OwnerToken(l.uuid, gid)] == 1
    ensures var after := ReleaseEffect(b, l.key, ChannelName(l.key), OwnerToken(l.uuid, gid), renewLease, PublishMessage).after;
      && l.key !in after.locks
      && after.published == b.published + [Message("publish-lock-channel:" + l.key, 1)]
  {
    assert ChannelName(l.key) == "publish-lock-channel:" + l.key;
  }

  /**
   * Two goroutines of one client never hold a key together: after one of them
   * acquires it, the other's acquire reports the key's time to live.
   */
  lemma GoroutinesExcludeEachOther(b: Backend, l: Rlock, g1: GoroutineId, g2: GoroutineId)
    requires WellFormed(b) && g1 != g2 && ':' !in l.uuid
    requires AcquireEffect(b, l.key, WatchdogTimeoutMs, OwnerToken(l.uuid, g1)).code < 0
    ensures var b1 := AcquireEffect(b, l.key, WatchdogTimeoutMs, OwnerToken(l.uuid, g1)).after;
      AcquireEffect(b1, l.key, WatchdogTimeoutMs, OwnerToken(l.uuid, g2)).code == WatchdogTimeoutMs
  {
    OwnerTokenInjective(l.uuid, g1, l.uuid, g2);
    AcquireExcludesOthers(b, l.key, WatchdogTimeoutMs, OwnerToken(l.uuid, g1), WatchdogTimeoutMs, OwnerToken(l.uuid, g2));
  }
}
