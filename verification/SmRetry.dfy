/** How long a read keeps trying: the retry loop of the session-manager client and its backoff. */
module SmRetry {
  import opened Text

  datatype Answer = Good | Bad | Unauthenticated | Unavailable

  datatype Recovery = Recovered | Refused | Transient

  datatype Result = NotLoggedIn | Returned(answer: Answer) | RecoveryRefused | Cancelled | DeadlinePassed(last: Answer)

  /** Milliseconds. */
  const BACKOFF_INITIAL: nat := 250
  const BACKOFF_MAX: nat := 15000
  const DEFAULT_DEADLINE: nat := 120000

  /**
    What the loop cannot control: the answer to its n-th RPC, and in its n-th round
    whether a token is held, how recovery ends, how long the round takes before
    the wait, and whether the caller's context ends during the wait.
   */
  datatype World = World(
    deadline: nat,
    answer: nat -> Answer,
    held: nat -> bool,
    recovery: nat -> Recovery,
    spent: nat -> nat,
    cancelled: nat -> bool)

  predicate Recoverable(a: Answer) {
    a.Unauthenticated? || a.Unavailable?
  }

  // ----------------------------------------------------------------- backoff

  function Backoff(n: nat): (ms: nat)
    ensures 0 < ms <= BACKOFF_MAX
  {
    if n == 0 then BACKOFF_INITIAL
    else if 2 * Backoff(n - 1) > BACKOFF_MAX then BACKOFF_MAX
    else 2 * Backoff(n - 1)
  }

  /** How long n completed waits last. */
  function Slept(n: nat): nat {
    if n == 0 then 0 else Slept(n - 1) + Backoff(n - 1)
  }

  /** The number of waits that fit into a deadline. */
  function Waits(deadline: nat): nat {
    if deadline < 250 then 0
    else if deadline < 750 then 1
    else if deadline < 1750 then 2
    else if deadline < 3750 then 3
    else if deadline < 7750 then 4
    else if deadline < 15750 then 5
    else 6 + (deadline - 15750) / BACKOFF_MAX
  }

  lemma FirstWaits()
    ensures Slept(1) == 250 && Slept(2) == 750 && Slept(3) == 1750 && Slept(4) == 3750
    ensures Slept(5) == 7750 && Slept(6) == 15750 && Backoff(6) == BACKOFF_MAX
  {
    assert Backoff(0) == 250 && Backoff(1) == 500;
    assert Backoff(2) == 1000 && Backoff(3) == 2000;
    assert Backoff(4) == 4000 && Backoff(5) == 8000;
    assert Slept(0) == 0 && Slept(2) == 750;
    assert Slept(4) == 3750;
  }

  lemma {:induction false} LaterWaits(n: nat)
    requires n >= 6
    ensures Backoff(n) == BACKOFF_MAX && Slept(n) == 15750 + (n - 6) * BACKOFF_MAX
  {
    if n == 6 {
      FirstWaits();
    } else {
      LaterWaits(n - 1);
    }
  }

  lemma {:induction false} SleptGrows(m: nat, n: nat)
    requires m <= n
    ensures Slept(m) <= Slept(n)
  {
    if m < n {
      SleptGrows(m, n - 1);
    }
  }

  /** Waits is exact: n waits fit into a deadline precisely when n is at most that. */
  lemma WaitsFitIff(n: nat, deadline: nat)
    ensures Slept(n) <= deadline <==> n <= Waits(deadline)
  {
    FirstWaits();
    if n >= 6 {
      LaterWaits(n);
      SleptGrows(6, n);
      DivisionBound(n - 6, deadline - 15750);
    } else {
      assert n == 0 || n == 1 || n == 2 || n == 3 || n == 4 || n == 5;
    }
  }

  lemma DivisionBound(k: nat, d: int)
    ensures d >= 0 ==> (k * BACKOFF_MAX <= d <==> k <= d / BACKOFF_MAX)
  {
  }

  // ---------------------------------------------------------------- the loop

  /** The answers to the first n RPCs all asked for another try. */
  ghost predicate AllRecoverable(w: World, n: nat) {
    forall i | 0 <= i < n :: Recoverable(w.answer(i))
  }

  /** How many of the first n rounds found a token to send another RPC with. */
  function HeldIn(w: World, n: nat): nat {
    if n == 0 then 0 else HeldIn(w, n - 1) + if w.held(n) then 1 else 0
  }

  /** The time at which the first n rounds and all waits before the n-th are over. */
  function Elapsed(w: World, n: nat): nat
    decreases n, 0
  {
    if n == 0 then 0 else WaitOver(w, n - 1) + w.spent(n)
  }

  /** The time at which the wait after the n-th round is over. */
  function WaitOver(w: World, n: nat): nat
    decreases n, 1
  {
    if n == 0 then 0 else Elapsed(w, n) + Backoff(n - 1)
  }

  /** The wait after the n-th round ends within the deadline. */
  predicate WaitFits(w: World, n: nat) {
    WaitOver(w, n) <= w.deadline
  }

  /** None of the first n rounds ended the loop. */
  ghost predicate GoneOn(w: World, n: nat) {
    forall i | 0 < i <= n :: !w.cancelled(i) && WaitFits(w, i)
  }

  lemma {:induction false} SleptWithin(w: World, n: nat)
    ensures Slept(n) <= WaitOver(w, n)
  {
    if n > 0 {
      SleptWithin(w, n - 1);
    }
  }

  /** The waits of the rounds that did not end the loop fit into the deadline. */
  lemma WaitsBound(w: World, n: nat)
    requires GoneOn(w, n)
    ensures n <= Waits(w.deadline)
  {
    SleptWithin(w, n);
    assert n > 0 ==> WaitFits(w, n);
    WaitsFitIff(n, w.deadline);
  }

  lemma GoesOn(w: World, n: nat, now: nat, backoff: nat)
    requires n > 0 && GoneOn(w, n - 1) && !w.cancelled(n)
    requires now == Elapsed(w, n) && backoff == Backoff(n - 1) && now + backoff <= w.deadline
    ensures GoneOn(w, n)
  {
    assert WaitFits(w, n);
  }

  lemma OneMoreRecoverable(w: World, n: nat)
    requires AllRecoverable(w, n) && Recoverable(w.answer(n))
    ensures AllRecoverable(w, n + 1)
  {
  }

  /** The part of a round before the wait: recover if the session was lost, and try again with the token held. */
  method TryAgain(w: World, last: Answer, before: nat, round: nat) returns (over: Option<Result>, answer: Answer, sent: nat)
    requires before > 0 && last == w.answer(before - 1) && AllRecoverable(w, before)
    ensures last.Unauthenticated? && w.recovery(round).Refused? ==> over == Some(RecoveryRefused) && sent == before
    ensures over == Some(RecoveryRefused) ==> last.Unauthenticated? && w.recovery(round).Refused? && sent == before
    ensures over != Some(RecoveryRefused) ==> sent == before + if w.held(round) then 1 else 0
    ensures answer == w.answer(sent - 1)
    ensures over == None ==> AllRecoverable(w, sent)
    ensures over.Some? ==> over.value.RecoveryRefused? || (over.value == Returned(answer) && !Recoverable(answer))
    ensures AllRecoverable(w, sent - 1) && before <= sent
  {
    over, answer, sent := None, last, before;
    if last.Unauthenticated? && w.recovery(round).Refused? {
      return Some(RecoveryRefused), last, before;
    }
    if w.held(round) {
      answer, sent := w.answer(before), before + 1;
      if !Recoverable(answer) {
        return Some(Returned(answer)), answer, sent;
      }
      OneMoreRecoverable(w, before);
    }
  }

  /** The loop, once the first RPC has asked for another try. */
  method Retry(w: World) returns (r: Result, sent: nat, rounds: nat)
    requires w.held(0) && Recoverable(w.answer(0))
    ensures 0 < sent <= 1 + rounds && !r.NotLoggedIn? && AllRecoverable(w, sent - 1)
    ensures r.Returned? <==> !Recoverable(w.answer(sent - 1))
    ensures r.Returned? ==> r.answer == w.answer(sent - 1)
    ensures r.DeadlinePassed? ==> r.last == w.answer(sent - 1)
    ensures rounds > 0 && GoneOn(w, rounds - 1)
    ensures sent == 1 + HeldIn(w, if r.RecoveryRefused? then rounds - 1 else rounds)
    ensures r.RecoveryRefused? ==> w.answer(sent - 1).Unauthenticated? && w.recovery(rounds).Refused?
    ensures r.Cancelled? ==> w.cancelled(rounds)
    ensures r.DeadlinePassed? ==> !w.cancelled(rounds) && !WaitFits(w, rounds)
  {
    sent, rounds := 1, 0;
    var answer, now, backoff := w.answer(0), 0, BACKOFF_INITIAL;
    while true
      invariant sent > 0 && answer == w.answer(sent - 1) && AllRecoverable(w, sent)
      invariant sent == 1 + HeldIn(w, rounds) <= 1 + rounds
      invariant now == WaitOver(w, rounds) && (rounds > 0 ==> now <= w.deadline)
      invariant backoff == Backoff(rounds) && GoneOn(w, rounds)
      decreases w.deadline - now
    {
      rounds := rounds + 1;
      var over;
      over, answer, sent := TryAgain(w, answer, sent, rounds);
      if over.Some? {
        return over.value, sent, rounds;
      }
      now := now + w.spent(rounds);
      assert now == Elapsed(w, rounds);
      if w.cancelled(rounds) {
        return Cancelled, sent, rounds;
      }
      if now + backoff > w.deadline {
        return DeadlinePassed(answer), sent, rounds;
      }
      GoesOn(w, rounds, now, backoff);
      now := now + backoff;
      backoff := if 2 * backoff > BACKOFF_MAX then BACKOFF_MAX else 2 * backoff;
    }
  }

  /**
    A read sends at most two RPCs more than the waits that fit into its deadline,
    whatever the server does; it returns the answer of the last one when that needs
    no retry, and every earlier one asked for it. It sends one RPC to begin with and
    one in each round that finds a token, and stops as soon as recovery is refused,
    the caller gives up, or the next wait would outlast the deadline.
   */
  method Read(w: World) returns (r: Result, sent: nat, rounds: nat)
    ensures sent <= 2 + Waits(w.deadline) && rounds <= 1 + Waits(w.deadline)
    ensures sent <= 1 + rounds
    ensures r.NotLoggedIn? <==> sent == 0
    ensures r.NotLoggedIn? <==> !w.held(0)
    ensures sent > 0 ==> AllRecoverable(w, sent - 1)
    ensures r.Returned? <==> sent > 0 && !Recoverable(w.answer(sent - 1))
    ensures r.Returned? ==> r.answer == w.answer(sent - 1)
    ensures r.DeadlinePassed? ==> r.last == w.answer(sent - 1)
    ensures rounds > 0 ==> GoneOn(w, rounds - 1)
    ensures r.RecoveryRefused? ==> rounds > 0 && sent > 0
    ensures sent > 0 ==> sent == 1 + HeldIn(w, if r.RecoveryRefused? then rounds - 1 else rounds)
    ensures r.RecoveryRefused? ==> w.answer(sent - 1).Unauthenticated? && w.recovery(rounds).Refused?
    ensures r.Cancelled? ==> w.cancelled(rounds)
    ensures r.DeadlinePassed? ==> rounds > 0 && !w.cancelled(rounds) && !WaitFits(w, rounds)
  {
    if !w.held(0) {
      return NotLoggedIn, 0, 0;
    }
    var answer := w.answer(0);
    if !Recoverable(answer) {
      return Returned(answer), 1, 0;
    }
    r, sent, rounds := Retry(w);
    WaitsBound(w, rounds - 1);
  }

  /** With the default recovery deadline a read sends at most fourteen RPCs. */
  lemma DefaultReadBound()
    ensures 2 + Waits(DEFAULT_DEADLINE) == 14
    ensures Slept(12) <= DEFAULT_DEADLINE < Slept(13)
  {
    LaterWaits(12);
    LaterWaits(13);
  }
}
