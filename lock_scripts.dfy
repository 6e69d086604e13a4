/**
 * What the two atomic Redis scripts of lock.go do to the store, as one step
 * each: `rLockScript` (lock.go:16-31) and `rUnlockScript` (lock.go:33-49).
 * A lock is one Redis hash per key, mapping an owner token to a reentrancy
 * count, with one expiry for the whole hash. No time passes in this model,
 * so a record's remaining time to live is the lease last set on it.
 */
module LockScripts {

  /** An owner token `uuid:gid` (see module Tokens). */
  type Token = string

  /** One lock hash: owner token to count, and `pttl` (-1 when no expiry is set). */
  datatype LockRecord = LockRecord(owners: map<Token, int>, pttl: int)

  /** A message sent with PUBLISH. */
  datatype Message = Message(channel: string, payload: int)

  /** The part of the Redis store the scripts touch, and every message published so far. */
  datatype Backend = Backend(locks: map<string, LockRecord>, published: seq<Message>)

  /** The store after a script has run, and the integer the script returned. */
  datatype Reply = Reply(after: Backend, code: int)

  /** Return codes of the two scripts. */
  const Acquired := -1
  const NotHeld := 0
  const StillHeld := 1
  const Released := 2

  /** A lock record as the scripts leave it: exactly one owner, a positive count, a lease. */
  predicate WellFormedRecord(rec: LockRecord) {
    && |rec.owners| == 1
    && (forall t :: t in rec.owners ==> rec.owners[t] >= 1)
    && rec.pttl > 0
  }

  predicate WellFormed(b: Backend) {
    forall key :: key in b.locks ==> WellFormedRecord(b.locks[key])
  }

  /** The two backends agree on every key other than `key`. */
  predicate OthersUnchanged(b: Backend, b': Backend, key: string) {
    && b'.locks.Keys - {key} == b.locks.Keys - {key}
    && (forall k :: k in b.locks && k in b'.locks && k != key ==> b'.locks[k] == b.locks[k])
  }

  predicate HeldBy(b: Backend, key: string, token: Token) {
    key in b.locks && token in b.locks[key].owners
  }

  /**
   * `rLockScript(KEYS[1] = key, ARGV[1] = lease, ARGV[2] = token)`, with the
   * intent of its comments: create `{token: 1}` when the key is absent,
   * count up when `token` already holds it (both resetting the lease and
   * returning -1), and otherwise return the key's remaining time to live.
   */
  function AcquireEffect(b: Backend, key: string, lease: int, token: Token): (r: Reply)
    requires lease > 0
    ensures r.after.published == b.published
    ensures OthersUnchanged(b, r.after, key)
    ensures key !in b.locks ==>
      r.code == Acquired && key in r.after.locks && r.after.locks[key] == LockRecord(map[token := 1], lease)
    ensures HeldBy(b, key, token) ==>
      && r.code == Acquired
      && key in r.after.locks
      && r.after.locks[key].pttl == lease
      && r.after.locks[key].owners.Keys == b.locks[key].owners.Keys
      && r.after.locks[key].owners[token] == b.locks[key].owners[token] + 1
    ensures key in b.locks && !HeldBy(b, key, token) ==>
      r.after == b && r.code == b.locks[key].pttl
    ensures WellFormed(b) ==> (r.code < 0 <==> key !in b.locks || HeldBy(b, key, token))
  {
    if key !in b.locks then
      Reply(b.(locks := b.locks[key := LockRecord(map[token := 1], lease)]), Acquired)
    else if token in b.locks[key].owners then
      var rec := b.locks[key];
      Reply(b.(locks := b.locks[key := LockRecord(rec.owners[token := rec.owners[token] + 1], lease)]), Acquired)
    else
      Reply(b, b.locks[key].pttl)
  }

  /**
   * `rUnlockScript(KEYS[1] = key, KEYS[2] = channel, ARGV[1] = token,
   * ARGV[2] = lease, ARGV[3] = message)`: 0 when `token` is not a field of
   * the hash; otherwise count down, and either reset the lease and return 1,
   * or delete the key, publish `message` on `channel` and return 2.
   */
  function ReleaseEffect(b: Backend, key: string, channel: string, token: Token, lease: int, message: int): (r: Reply)
    requires lease > 0
    ensures NotHeld <= r.code <= Released
    ensures r.code == NotHeld <==> !HeldBy(b, key, token)
    ensures r.code == NotHeld ==> r.after == b
    ensures r.after.published ==
      if r.code == Released then b.published + [Message(channel, message)] else b.published
    ensures OthersUnchanged(b, r.after, key)
    ensures r.code == StillHeld ==>
      && key in r.after.locks
      && r.after.locks[key].pttl == lease
      && r.after.locks[key].owners.Keys == b.locks[key].owners.Keys
      && r.after.locks[key].owners[token] == b.locks[key].owners[token] - 1 > 0
    ensures r.code == Released ==> key !in r.after.locks && b.locks[key].owners[token] <= 1
  {
    if !HeldBy(b, key, token) then
      Reply(b, NotHeld)
    else
      var rec := b.locks[key];
      var count := rec.owners[token] - 1;
      if count > 0 then
        Reply(b.(locks := b.locks[key := LockRecord(rec.owners[token := count], lease)]), StillHeld)
      else
        Reply(Backend(b.locks - {key}, b.published + [Message(channel, message)]), Released)
  }

  /** In a well-formed record the holder named by any field is the only one. */
  lemma SoleOwner(b: Backend, key: string, token: Token)
    requires WellFormed(b) && HeldBy(b, key, token)
    ensures b.locks[key].owners.Keys == {token}
  {
    var keys := b.locks[key].owners.Keys;
    assert keys == (keys - {token}) + {token};
    assert |keys - {token}| == 0;
  }

  lemma AcquirePreservesWellFormed(b: Backend, key: string, lease: int, token: Token)
    requires lease > 0 && WellFormed(b)
    ensures WellFormed(AcquireEffect(b, key, lease, token).after)
  {
  }

  lemma ReleasePreservesWellFormed(b: Backend, key: string, channel: string, token: Token, lease: int, message: int)
    requires lease > 0 && WellFormed(b)
    ensures WellFormed(ReleaseEffect(b, key, channel, token, lease, message).after)
  {
  }

  /**
   * Mutual exclusion: once one owner's acquire has succeeded, an acquire of
   * the same key by any other owner fails and reports a positive time to live.
   */
  lemma AcquireExcludesOthers(b: Backend, key: string, lease1: int, t1: Token, lease2: int, t2: Token)
    requires lease1 > 0 && lease2 > 0 && WellFormed(b) && t1 != t2
    requires AcquireEffect(b, key, lease1, t1).code < 0
    ensures var b1 := AcquireEffect(b, key, lease1, t1).after;
      && AcquireEffect(b1, key, lease2, t2) == Reply(b1, lease1)
  {
    var b1 := AcquireEffect(b, key, lease1, t1).after;
    if key in b.locks {
      SoleOwner(b, key, t1);
    }
    assert b1.locks[key].owners.Keys == {t1};
  }

  /** A release by a token that holds no field of the hash changes nothing. */
  lemma ReleaseByStrangerIsNoOp(b: Backend, key: string, channel: string, holder: Token, stranger: Token, lease: int, message: int)
    requires lease > 0 && WellFormed(b) && HeldBy(b, key, holder) && holder != stranger
    ensures ReleaseEffect(b, key, channel, stranger, lease, message) == Reply(b, NotHeld)
  {
    SoleOwner(b, key, holder);
  }

  /** `n` acquires by one owner in a row; the store after them and every code returned. */
  datatype Replies = Replies(after: Backend, codes: seq<int>)

  function AcquireTimes(b: Backend, key: string, lease: int, token: Token, n: nat): (r: Replies)
    requires lease > 0
    decreases n
  {
    if n == 0 then Replies(b, [])
    else
      var prev := AcquireTimes(b, key, lease, token, n - 1);
      var step := AcquireEffect(prev.after, key, lease, token);
      Replies(step.after, prev.codes + [step.code])
  }

  function ReleaseTimes(b: Backend, key: string, channel: string, token: Token, lease: int, message: int, n: nat): (r: Replies)
    requires lease > 0
    decreases n
  {
    if n == 0 then Replies(b, [])
    else
      var step := ReleaseEffect(b, key, channel, token, lease, message);
      var rest := ReleaseTimes(step.after, key, channel, token, lease, message, n - 1);
      Replies(rest.after, [step.code] + rest.codes)
  }

  lemma UpdateTwice<K, V>(m: map<K, V>, k: K, v1: V, v2: V)
    ensures m[k := v1][k := v2] == m[k := v2]
  {
  }

  lemma RemoveUpdated<K, V>(m: map<K, V>, k: K, v: V)
    ensures m[k := v] - {k} == m - {k}
  {
  }

  /** One more acquire by the sole owner of a key raises its count by one and resets the lease. */
  lemma AcquireBySoleOwner(b: Backend, key: string, lease: int, token: Token, count: int, ttl: int)
    requires lease > 0 && key in b.locks && b.locks[key] == LockRecord(map[token := count], ttl)
    ensures AcquireEffect(b, key, lease, token)
      == Reply(b.(locks := b.locks[key := LockRecord(map[token := count + 1], lease)]), Acquired)
  {
    UpdateTwice(map[], token, count, count + 1);
  }

  lemma {:induction false} AcquireTimesFromAbsent(b: Backend, key: string, lease: int, token: Token, n: nat)
    requires lease > 0 && key !in b.locks && n > 0
    ensures var r := AcquireTimes(b, key, lease, token, n);
      && r.after == b.(locks := b.locks[key := LockRecord(map[token := n], lease)])
      && |r.codes| == n
      && (forall i :: 0 <= i < n ==> r.codes[i] == Acquired)
    decreases n
  {
    if n > 1 {
      AcquireTimesFromAbsent(b, key, lease, token, n - 1);
      var prev := AcquireTimes(b, key, lease, token, n - 1);
      AcquireBySoleOwner(prev.after, key, lease, token, n - 1, lease);
      UpdateTwice(b.locks, key, LockRecord(map[token := n - 1], lease), LockRecord(map[token := n], lease));
    }
  }

  lemma {:induction false} ReleaseTimesFromCount(b: Backend, key: string, channel: string, token: Token, lease: int, message: int, n: nat, ttl: int)
    requires lease > 0 && n > 0
    requires key in b.locks && b.locks[key] == LockRecord(map[token := n], ttl)
    ensures var r := ReleaseTimes(b, key, channel, token, lease, message, n);
      && r.after.locks == b.locks - {key}
      && r.after.published == b.published + [Message(channel, message)]
      && |r.codes| == n
      && r.codes[n - 1] == Released
      && (forall i :: 0 <= i < n - 1 ==> r.codes[i] == StillHeld)
    decreases n
  {
    var step := ReleaseEffect(b, key, channel, token, lease, message);
    if n > 1 {
      UpdateTwice(map[], token, n, n - 1);
      ReleaseTimesFromCount(step.after, key, channel, token, lease, message, n - 1, lease);
      RemoveUpdated(b.locks, key, LockRecord(map[token := n - 1], lease));
    }
  }

  /**
   * Reentrancy round trip: `n` acquires by one owner on an absent key, then
   * `n` releases by that owner, leave the key absent and every other key as it
   * was; each acquire returns -1, the first n-1 releases return 1, the last
   * returns 2, and exactly one wake message is published.
   */
  lemma ReentrantRoundTrip(b: Backend, key: string, channel: string, token: Token, lease: int, renewLease: int, message: int, n: nat)
    requires lease > 0 && renewLease > 0 && key !in b.locks && n > 0
    ensures var held := AcquireTimes(b, key, lease, token, n);
      var freed := ReleaseTimes(held.after, key, channel, token, renewLease, message, n);
      && |held.codes| == n
      && (forall i :: 0 <= i < n ==> held.codes[i] == Acquired)
      && freed.after == Backend(b.locks, b.published + [Message(channel, message)])
      && |freed.codes| == n
      && freed.codes[n - 1] == Released
      && (forall i :: 0 <= i < n - 1 ==> freed.codes[i] == StillHeld)
  {
    var held := AcquireTimes(b, key, lease, token, n);
    AcquireTimesFromAbsent(b, key, lease, token, n);
    ReleaseTimesFromCount(held.after, key, channel, token, renewLease, message, n, lease);
    RemoveUpdated(b.locks, key, LockRecord(map[token := n], lease));
    assert b.locks - {key} == b.locks;
  }
}
