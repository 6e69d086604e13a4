/**
 * The Redis store as the lock scripts see it: lock hashes and the log of
 * published messages, updated in place by the Redis commands the scripts
 * call. `Acquire` and `Release` run the two scripts of lock.go command by
 * command and are proved to have the one-step effect given in LockScripts.
 */
module LockStore {
  import opened LockScripts

  class Store {
    var locks: map<string, LockRecord>
    var published: seq<Message>

    constructor ()
      ensures locks == map[] && published == []
    {
      locks := map[];
      published := [];
    }

    function State(): Backend
      reads this
    {
      Backend(locks, published)
    }

    /** EXISTS key */
    function Exists(key: string): (r: bool)
      reads this
      ensures r <==> key in State().locks
      ensures !r ==> forall owner :: !HeldBy(State(), key, owner)
      ensures r && WellFormed(State()) ==> exists owner :: HeldBy(State(), key, owner)
    {
      if key in locks && WellFormed(State()) then
        assert exists owner :: HeldBy(State(), key, owner) by {
          var owners := locks[key].owners.Keys;
          assert |owners| == 1;
          assert owners != {};
          var owner :| owner in owners;
          assert HeldBy(State(), key, owner);
        }
        true
      else
        key in locks
    }

    /** HEXISTS key field */
    function HExists(key: string, field: Token): (r: bool)
      reads this
      ensures r <==> HeldBy(State(), key, field)
      ensures r ==> Exists(key)
      ensures r && WellFormed(State()) ==> locks[key].owners.Keys == {field}
    {
      if key in locks && field in locks[key].owners then
        if WellFormed(State()) then SoleOwner(State(), key, field); true else true
      else
        false
    }

    /** PTTL key: -2 for a missing key, -1 for a key without expiry. */
    function PTtl(key: string): (r: int)
      reads this
      ensures !Exists(key) ==> r == -2
      ensures Exists(key) ==> r == locks[key].pttl
      ensures WellFormed(State()) && Exists(key) ==> r > 0
    {
      if key in locks then locks[key].pttl else -2
    }

    /** HINCRBY key field delta: a missing hash or field counts as 0; returns the new value. */
    method HIncrBy(key: string, field: Token, delta: int) returns (value: int)
      modifies this
      ensures value == (if old(HExists(key, field)) then old(locks[key].owners[field]) else 0) + delta
      ensures old(key in locks) ==>
        locks == old(locks[key := LockRecord(locks[key].owners[field := value], locks[key].pttl)])
      ensures old(key !in locks) ==> locks == old(locks)[key := LockRecord(map[field := value], -1)]
      ensures published == old(published)
    {
      if key in locks {
        var rec := locks[key];
        value := (if field in rec.owners then rec.owners[field] else 0) + delta;
        locks := locks[key := LockRecord(rec.owners[field := value], rec.pttl)];
      } else {
        value := delta;
        locks := locks[key := LockRecord(map[field := value], -1)];
      }
    }

    /** PEXPIRE key ms, for a positive `ms`: sets the time to live of an existing key. */
    method PExpire(key: string, ms: int)
      requires ms > 0
      modifies this
      ensures old(key in locks) ==> locks == old(locks[key := locks[key].(pttl := ms)])
      ensures old(key !in locks) ==> locks == old(locks)
      ensures published == old(published)
    {
      if key in locks {
        locks := locks[key := locks[key].(pttl := ms)];
      }
    }

    /** DEL key */
    method Del(key: string)
      modifies this
      ensures locks == old(locks) - {key}
      ensures published == old(published)
    {
      locks := locks - {key};
    }

    /** PUBLISH channel message */
    method Publish(channel: string, message: int)
      modifies this
      ensures published == old(published) + [Message(channel, message)]
      ensures locks == old(locks)
    {
      published := published + [Message(channel, message)];
    }

    /** `rLockScript` (lock.go:16-31) with KEYS[1] = key, ARGV[1] = lease, ARGV[2] = token. */
    method Acquire(key: string, lease: int, token: Token) returns (code: int)
      requires lease > 0
      modifies this
      ensures Reply(State(), code) == AcquireEffect(old(State()), key, lease, token)
    {
      if !Exists(key) {
        var _ := HIncrBy(key, token, 1);
        PExpire(key, lease);
        return -1;
      }
      if HExists(key, token) {
        var _ := HIncrBy(key, token, 1);
        PExpire(key, lease);
        return -1;
      }
      code := PTtl(key);
    }

    /**
     * `rUnlockScript` (lock.go:33-49) with KEYS[1] = key, KEYS[2] = channel,
     * ARGV[1] = token, ARGV[2] = lease, ARGV[3] = message.
     */
    method Release(key: string, channel: string, token: Token, lease: int, message: int) returns (code: int)
      requires lease > 0
      modifies this
      ensures Reply(State(), code) == ReleaseEffect(old(State()), key, channel, token, lease, message)
    {
      if !HExists(key, token) {
        return 0;
      }
      var count := HIncrBy(key, token, -1);
      if count > 0 {
        PExpire(key, lease);
        return 1;
      } else {
        Del(key);
        Publish(channel, message);
        return 2;
      }
    }
  }
}
