/**
 * The strings the lock client builds: the owner token `uuid:gid` written into
 * the lock hash (lock.go:155 and lock.go:166, both `fmt.Sprintf("%s:%d", ...)`)
 * and the wake channel `publish-lock-channel:<key>` (lock.go:14, lock.go:83,
 * lock.go:165).
 */
module Tokens {
  import opened Goroutines

  const PubSubChannel: string := "publish-lock-channel"

  predicate IsDigits(s: string) {
    forall i :: 0 <= i < |s| ==> '0' <= s[i] <= '9'
  }

  function DigitChar(d: nat): (c: char)
    requires d < 10
  {
    (48 + d) as char
  }

  function DigitValue(c: char): (d: nat)
    requires '0' <= c <= '9'
  {
    c as int - 48
  }

  /** Go's `%d` rendering of a non-negative integer: decimal digits, no leading zero. */
  function Decimal(n: nat): (s: string)
    ensures |s| >= 1 && IsDigits(s)
    ensures s[0] == '0' ==> n == 0
    decreases n
  {
    if n < 10 then [DigitChar(n)] else Decimal(n / 10) + [DigitChar(n % 10)]
  }

  /** Reads a string of decimal digits back as the number it denotes. */
  function ParseDecimal(s: string): (n: nat)
    requires IsDigits(s)
    decreases |s|
  {
    if |s| == 0 then 0 else ParseDecimal(s[..|s| - 1]) * 10 + DigitValue(s[|s| - 1])
  }

  lemma {:induction false} ParseDecimalInverts(n: nat)
    ensures ParseDecimal(Decimal(n)) == n
    decreases n
  {
    var s := Decimal(n);
    if n >= 10 {
      assert s[..|s| - 1] == Decimal(n / 10);
      ParseDecimalInverts(n / 10);
    }
  }

  /** The hash field that identifies one goroutine of one client process. */
  function OwnerToken(uuid: string, gid: GoroutineId): (token: string)
    ensures |token| > |uuid| + 1
    ensures token[..|uuid|] == uuid && token[|uuid|] == ':'
    ensures IsDigits(token[|uuid| + 1..]) && ParseDecimal(token[|uuid| + 1..]) == gid
  {
    var digits := Decimal(gid);
    ParseDecimalInverts(gid);
    assert (uuid + ":" + digits)[|uuid| + 1..] == digits;
    uuid + ":" + digits
  }

  /**
   * Two owner tokens are equal exactly when they were built from the same
   * client identity and the same goroutine, provided the identity holds no
   * colon (a UUID string never does).
   */
  lemma OwnerTokenInjective(u1: string, g1: GoroutineId, u2: string, g2: GoroutineId)
    requires ':' !in u1 && ':' !in u2
    ensures OwnerToken(u1, g1) == OwnerToken(u2, g2) <==> u1 == u2 && g1 == g2
  {
  }

  /** The wake channel on which the release of `key` is announced. */
  function ChannelName(key: string): (channel: string)
    ensures |channel| == |PubSubChannel| + 1 + |key|
    ensures channel[..|PubSubChannel| + 1] == PubSubChannel + ":"
    ensures channel[|PubSubChannel| + 1..] == key
  {
    PubSubChannel + ":" + key
  }

  lemma ChannelNameInjective(k1: string, k2: string)
    ensures ChannelName(k1) == ChannelName(k2) <==> k1 == k2
  {
  }
}
