/**
 * `Rlock.TryLock` (lock.go:65-135): acquire, and on contention wait for a
 * wake message or a deadline, then retry, until the wait budget runs out.
 * The clock, the acquire script and the subscription are outside the model:
 * what each round of the loop observed is an input, and the deadlines the
 * loop arms its timers with are part of the result.
 */
module TryLocking {

  /** What `tryAcquire(-1)` gave back: the script's integer or a client error. */
  datatype AcquireReply = Ttl(ms: int) | Failure(reason: string)

  /**
   * One round of the loop: the acquire reply, the milliseconds the clock
   * advanced over the acquire, whether `ReceiveMessage` returned a message
   * (false: the subscription was closed, by a timer or otherwise) and the
   * milliseconds the clock advanced over the wait. Elapsed times are plain
   * integers: the source reads the wall clock, which may step back.
   */
  datatype Round = Round(reply: AcquireReply, acquireMs: int, received: bool, waitMs: int)

  /**
   * How `TryLock` ends: nil, "get lock failed: wait time running out",
   * "retry lock failed: wait time running out", an error of the acquire, or
   * (only in the model) the end of the supplied rounds.
   */
  datatype Outcome = Locked | GetLockTimeout | RetryLockTimeout | BackendError(reason: string) | TraceEnded

  /** The outcome, and the deadline (ms) of each timer armed to close the subscription. */
  datatype Run = Run(outcome: Outcome, deadlines: seq<int>)

  function Then(deadlines: seq<int>, rest: Run): Run {
    Run(rest.outcome, deadlines + rest.deadlines)
  }

  /**
   * The rounds from `rounds[0]` on, with `waitTime` ms of budget left; `first`
   * is the round before the `for` loop (lock.go:68-96), which reports the
   * first timeout differently and waits for the whole budget.
   */
  function Attempts(waitTime: int, rounds: seq<Round>, first: bool): (r: Run)
    ensures |r.deadlines| <= |rounds|
    decreases |rounds|
  {
    if rounds == [] then Run(TraceEnded, [])
    else
      var round := rounds[0];
      match round.reply
      case Failure(reason) => Run(BackendError(reason), [])
      case Ttl(ttl) =>
        if ttl < 0 then Run(Locked, [])
        else
          var left := waitTime - round.acquireMs;
          if left <= 0 then Run(if first then GetLockTimeout else RetryLockTimeout, [])
          else
            var deadline := if !first && ttl < left then ttl else left;
            if !round.received || left - round.waitMs <= 0 then Run(RetryLockTimeout, [deadline])
            else Then([deadline], Attempts(left - round.waitMs, rounds[1..], false))
  }

  /** `TryLock(wTime)`: `wTime` is in seconds, the budget in milliseconds. */
  method TryLock(wTime: int, rounds: seq<Round>) returns (r: Run)
    ensures r == Attempts(wTime * 1000, rounds, true)
  {
    var waitTime := wTime * 1000;
    if |rounds| == 0 {
      return Run(TraceEnded, []);
    }
    var ttl: int;
    match rounds[0].reply {
      case Failure(reason) => return Run(BackendError(reason), []);
      case Ttl(ms) => ttl := ms;
    }
    if ttl < 0 {
      return Run(Locked, []);
    }
    waitTime := waitTime - rounds[0].acquireMs;
    if waitTime <= 0 {
      return Run(GetLockTimeout, []);
    }
    var deadlines := [waitTime];
    if !rounds[0].received {
      return Run(RetryLockTimeout, deadlines);
    }
    waitTime := waitTime - rounds[0].waitMs;
    if waitTime <= 0 {
      return Run(RetryLockTimeout, deadlines);
    }
    var i := 1;
    while true
      invariant 1 <= i <= |rounds|
      invariant Attempts(wTime * 1000, rounds, true) == Then(deadlines, Attempts(waitTime, rounds[i..], false))
      decreases |rounds| - i
    {
      if i == |rounds| {
        return Run(TraceEnded, deadlines);
      }
      var round := rounds[i];
      assert rounds[i..][0] == round && rounds[i..][1..] == rounds[i + 1..];
      ghost var budget, armed := waitTime, deadlines;
      match round.reply {
        case Failure(reason) => return Run(BackendError(reason), deadlines);
        case Ttl(ms) => ttl := ms;
      }
      if ttl < 0 {
        return Run(Locked, deadlines);
      }
      waitTime := waitTime - round.acquireMs;
      if waitTime <= 0 {
        return Run(RetryLockTimeout, deadlines);
      }
      if ttl < waitTime {
        deadlines := deadlines + [ttl];
      } else {
        deadlines := deadlines + [waitTime];
      }
      if !round.received {
        return Run(RetryLockTimeout, deadlines);
      }
      waitTime := waitTime - round.waitMs;
      if waitTime <= 0 {
        return Run(RetryLockTimeout, deadlines);
      }
      ghost var later := Attempts(waitTime, rounds[i + 1..], false);
      ghost var deadline := deadlines[|armed|];
      assert deadlines == armed + [deadline];
      assert Attempts(budget, rounds[i..], false) == Then([deadline], later);
      AppendAssociative(armed, [deadline], later.deadlines);
      i := i + 1;
    }
  }

  lemma AppendAssociative(a: seq<int>, b: seq<int>, c: seq<int>)
    ensures a + (b + c) == (a + b) + c
  {
  }

  /** Milliseconds that passed over the given rounds. */
  function Elapsed(rounds: seq<Round>): int
    decreases |rounds|
  {
    if rounds == [] then 0 else rounds[0].acquireMs + rounds[0].waitMs + Elapsed(rounds[1..])
  }

  function Min(a: int, b: int): int {
    if a < b then a else b
  }

  /** An acquire that took the lock. */
  predicate Succeeds(round: Round) {
    round.reply.Ttl? && round.reply.ms < 0
  }

  /**
   * Round `j` leaves the loop running: its acquire reported a time to live,
   * the budget left after the acquire was positive, a message arrived, and the
   * budget left after the wait was positive.
   */
  predicate Continues(waitTime: int, rounds: seq<Round>, j: nat)
    requires j < |rounds|
  {
    var round := rounds[j];
    var start := waitTime - Elapsed(rounds[..j]);
    && round.reply.Ttl? && round.reply.ms >= 0
    && start - round.acquireMs > 0
    && round.received
    && start - round.acquireMs - round.waitMs > 0
  }

  lemma ElapsedShift(rounds: seq<Round>, j: nat)
    requires j < |rounds|
    ensures Elapsed(rounds[..j + 1]) == rounds[0].acquireMs + rounds[0].waitMs + Elapsed(rounds[1..][..j])
  {
    assert rounds[..j + 1][1..] == rounds[1..][..j];
  }

  lemma ContinuesShift(waitTime: int, rounds: seq<Round>, j: nat)
    requires j + 1 < |rounds|
    ensures Continues(waitTime, rounds, j + 1)
      == Continues(waitTime - rounds[0].acquireMs - rounds[0].waitMs, rounds[1..], j)
  {
    ElapsedShift(rounds, j);
  }

  /** While every round before `k` continues, the run is decided by the rounds from `k` on. */
  lemma {:induction false} Unroll(waitTime: int, rounds: seq<Round>, first: bool, k: nat)
    requires k <= |rounds|
    requires forall j :: 0 <= j < k ==> Continues(waitTime, rounds, j)
    ensures Attempts(waitTime, rounds, first).outcome
      == Attempts(waitTime - Elapsed(rounds[..k]), rounds[k..], first && k == 0).outcome
    decreases k
  {
    if k == 0 {
      assert rounds[..0] == [] && rounds[0..] == rounds;
    } else {
      assert Continues(waitTime, rounds, 0);
      assert rounds[..0] == [];
      var rest := waitTime - rounds[0].acquireMs - rounds[0].waitMs;
      forall j | 0 <= j < k - 1
        ensures Continues(rest, rounds[1..], j)
      {
        ContinuesShift(waitTime, rounds, j);
      }
      Unroll(rest, rounds[1..], false, k - 1);
      ElapsedShift(rounds, k - 1);
      assert rounds[1..][k - 1..] == rounds[k..];
    }
  }

  /** Some acquire takes the lock, and every round before it left the loop running. */
  predicate SucceedsAt(waitTime: int, rounds: seq<Round>, k: nat)
    requires k < |rounds|
  {
    Succeeds(rounds[k]) && forall j :: 0 <= j < k ==> Continues(waitTime, rounds, j)
  }

  lemma SuccessLocks(waitTime: int, rounds: seq<Round>, first: bool, k: nat)
    requires k < |rounds| && SucceedsAt(waitTime, rounds, k)
    ensures Attempts(waitTime, rounds, first).outcome == Locked
  {
    Unroll(waitTime, rounds, first, k);
    assert rounds[k..][0] == rounds[k];
  }

  lemma {:induction false} LockedNeedsSuccess(waitTime: int, rounds: seq<Round>, first: bool)
    requires Attempts(waitTime, rounds, first).outcome == Locked
    ensures exists k :: 0 <= k < |rounds| && SucceedsAt(waitTime, rounds, k)
    decreases |rounds|
  {
    if Succeeds(rounds[0]) {
      assert SucceedsAt(waitTime, rounds, 0);
    } else {
      assert Continues(waitTime, rounds, 0);
      var rest := waitTime - rounds[0].acquireMs - rounds[0].waitMs;
      LockedNeedsSuccess(rest, rounds[1..], false);
      var k' :| 0 <= k' < |rounds| - 1 && SucceedsAt(rest, rounds[1..], k');
      forall j | 0 <= j < k' + 1
        ensures Continues(waitTime, rounds, j)
      {
        if j > 0 {
          assert Continues(rest, rounds[1..], j - 1);
          ContinuesShift(waitTime, rounds, j - 1);
        }
      }
      assert SucceedsAt(waitTime, rounds, k' + 1);
    }
  }

  /**
   * `TryLock` succeeds exactly when some acquire takes the lock and every
   * round before it left the loop running.
   */
  lemma LockedIff(waitTime: int, rounds: seq<Round>, first: bool)
    ensures Attempts(waitTime, rounds, first).outcome == Locked <==>
      exists k :: 0 <= k < |rounds| && SucceedsAt(waitTime, rounds, k)
  {
    if Attempts(waitTime, rounds, first).outcome == Locked {
      LockedNeedsSuccess(waitTime, rounds, first);
    }
    if exists k :: 0 <= k < |rounds| && SucceedsAt(waitTime, rounds, k) {
      var k :| 0 <= k < |rounds| && SucceedsAt(waitTime, rounds, k);
      SuccessLocks(waitTime, rounds, first, k);
    }
  }

  /**
   * Once the budget left is no longer positive, or a wait ends without a
   * message, `TryLock` gives up with a timeout; "get lock failed" only when
   * the very first acquire already used up the budget.
   */
  lemma BudgetExhaustedFails(waitTime: int, rounds: seq<Round>, first: bool, k: nat)
    requires k < |rounds|
    requires forall j :: 0 <= j < k ==> Continues(waitTime, rounds, j)
    requires rounds[k].reply.Ttl? && rounds[k].reply.ms >= 0
    requires !Continues(waitTime, rounds, k)
    ensures var outcome := Attempts(waitTime, rounds, first).outcome;
      && (outcome == GetLockTimeout || outcome == RetryLockTimeout)
      && (outcome == GetLockTimeout <==> first && k == 0 && waitTime - rounds[0].acquireMs <= 0)
  {
    Unroll(waitTime, rounds, first, k);
    assert rounds[k..][0] == rounds[k];
    if k == 0 {
      assert rounds[..0] == [];
    }
  }

  /**
   * The `i`-th timer deadline is between 0 and the budget left when it is
   * armed: the whole budget for the first wait, the smaller of the holder's
   * time to live and the budget for every later one.
   */
  predicate DeadlineFits(waitTime: int, rounds: seq<Round>, first: bool, i: nat, deadline: int)
    requires i < |rounds|
  {
    var budget := waitTime - Elapsed(rounds[..i]) - rounds[i].acquireMs;
    && rounds[i].reply.Ttl?
    && 0 <= deadline <= budget
    && (first && i == 0 ==> deadline == budget)
    && (!first || i > 0 ==> deadline == Min(rounds[i].reply.ms, budget))
  }

  lemma DeadlineFitsShift(waitTime: int, rounds: seq<Round>, first: bool, i: nat, deadline: int)
    requires 0 < i < |rounds|
    requires DeadlineFits(waitTime - rounds[0].acquireMs - rounds[0].waitMs, rounds[1..], false, i - 1, deadline)
    ensures DeadlineFits(waitTime, rounds, first, i, deadline)
  {
    ElapsedShift(rounds, i - 1);
  }

  /** Every timer `TryLock` arms has a deadline that fits the budget left at that point. */
  lemma {:induction false} DeadlinesWithinBudget(waitTime: int, rounds: seq<Round>, first: bool)
    ensures var r := Attempts(waitTime, rounds, first);
      forall i :: 0 <= i < |r.deadlines| ==> DeadlineFits(waitTime, rounds, first, i, r.deadlines[i])
    decreases |rounds|
  {
    var r := Attempts(waitTime, rounds, first);
    if |r.deadlines| > 0 {
      assert rounds[..0] == [];
      assert DeadlineFits(waitTime, rounds, first, 0, r.deadlines[0]);
      var round := rounds[0];
      var left := waitTime - round.acquireMs;
      if round.received && left - round.waitMs > 0 {
        var rest := Attempts(left - round.waitMs, rounds[1..], false);
        assert round.reply.Ttl? && round.reply.ms >= 0 && left > 0;
        assert r.deadlines == [r.deadlines[0]] + rest.deadlines;
        DeadlinesWithinBudget(left - round.waitMs, rounds[1..], false);
        assert var r' := Attempts(left - round.waitMs, rounds[1..], false);
          forall i :: 0 <= i < |r'.deadlines| ==> DeadlineFits(left - round.waitMs, rounds[1..], false, i, r'.deadlines[i]);
        forall i | 1 <= i < |r.deadlines|
          ensures DeadlineFits(waitTime, rounds, first, i, r.deadlines[i])
        {
          assert DeadlineFits(left - round.waitMs, rounds[1..], false, i - 1, rest.deadlines[i - 1]);
          DeadlineFitsShift(waitTime, rounds, first, i, r.deadlines[i]);
        }
      }
    }
  }

  /** A first acquire that finds the key held, with no budget, fails at once and never waits. */
  lemma NoWaitFailsAtOnce(rounds: seq<Round>)
    requires |rounds| > 0 && rounds[0].reply.Ttl? && rounds[0].reply.ms >= 0 && rounds[0].acquireMs >= 0
    ensures Attempts(0, rounds, true) == Run(GetLockTimeout, [])
  {
  }
}
