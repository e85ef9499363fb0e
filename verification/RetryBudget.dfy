/** The bounded, jittered retries of the browser lease requests. */
module RetryBudget {
  type Jitter = r: real | 0.0 <= r < 1.0 witness 0.0

  /** One exchange with the owner: done, refused with a code, or failed on the way. */
  datatype Answer = Accepted | Refusal(status: int, code: string) | Failed

  datatype Kind = Acquire | RenewOrRelease

  datatype Policy = Policy(base: int, cap: int)

  const DEFAULT: Policy := Policy(250, 5000)

  predicate Sound(p: Policy) {
    p.base >= 1 && p.cap >= 1
  }

  const RETRYABLE: set<string> := {"controller_busy", "profile_in_use", "capacity_busy", "profile_stop_pending"}

  predicate Retryable(kind: Kind, answer: Answer) {
    answer.Refusal? &&
    match kind
    case Acquire =>
      || (answer.status == 409 && (answer.code in RETRYABLE || answer.code == "unknown"))
      || (answer.status == 503 && answer.code == "profile_stop_pending")
    case RenewOrRelease => answer.status == 409 && answer.code == "controller_busy"
  }

  // ------------------------------------------------------------ delays

  function Pow2(n: nat): (r: int)
    ensures r >= 1
  {
    if n == 0 then 1 else 2 * Pow2(n - 1)
  }

  function Min(a: int, b: int): int {
    if a < b then a else b
  }

  function Ceiling(p: Policy, attempt: int): int {
    Min(p.cap, p.base * Pow2(if attempt < 0 then 0 else attempt))
  }

  /** To the nearest whole number, halves upwards. */
  function Round(x: real): int {
    (x + 0.5).Floor
  }

  /** Between half and all of a whole number of milliseconds. */
  function Jittered(whole: int, random: Jitter): int {
    var half := whole as real / 2.0;
    Round(half + random * half)
  }

  function RetryDelay(p: Policy, attempt: int, random: Jitter): int {
    Jittered(Ceiling(p, attempt), random)
  }

  lemma CeilingIsPositive(p: Policy, attempt: int)
    requires Sound(p)
    ensures Ceiling(p, attempt) >= 1
  {
    Scales(p.base, Pow2(if attempt < 0 then 0 else attempt));
  }

  lemma Scales(a: int, b: int)
    requires a >= 1 && b >= 1
    ensures a * b >= 1
  {
  }

  /** Between half and all of the ceiling, never nothing, and no less than the delay of an unlucky draw of zero. */
  lemma DelayBounds(p: Policy, attempt: int, random: Jitter)
    requires Sound(p)
    ensures 1 <= RetryDelay(p, attempt, 0.0) <= RetryDelay(p, attempt, random) <= Ceiling(p, attempt)
    ensures Ceiling(p, attempt) <= 2 * RetryDelay(p, attempt, random)
  {
    CeilingIsPositive(p, attempt);
    JitterBounds(Ceiling(p, attempt), random);
    JitterBounds(Ceiling(p, attempt), 0.0);
  }

  lemma JitterBounds(whole: int, random: Jitter)
    requires whole >= 1
    ensures 1 <= Jittered(whole, 0.0) <= Jittered(whole, random) <= whole <= 2 * Jittered(whole, 0.0)
  {
    var half := whole as real / 2.0;
    var extra := random * half;
    assert half + half == whole as real;
    Fraction(random, half);
    RoundBounds(half, extra, whole);
    RoundBounds(half, 0.0, whole);
    RoundGrows(half, half + extra);
  }

  lemma Fraction(r: real, x: real)
    requires 0.0 <= r < 1.0 && 0.0 <= x
    ensures 0.0 <= r * x <= x
  {
    assert r * x + (1.0 - r) * x == x;
  }

  lemma RoundGrows(x: real, y: real)
    requires x <= y
    ensures Round(x) <= Round(y)
  {
  }

  /** Rounding half a whole number, with up to as much on top. */
  lemma RoundBounds(half: real, extra: real, whole: int)
    requires half + half == whole as real && whole >= 1 && 0.0 <= extra <= half
    ensures 1 <= Round(half + extra) <= whole <= 2 * Round(half + extra)
  {
  }

  // ------------------------------------------------------------ delays and refusals, exactly

  /** The ceiling doubles with each attempt until it meets the cap. */
  lemma CeilingExactly(p: Policy, attempt: nat)
    requires Sound(p)
    ensures Ceiling(p, 0) == if p.base < p.cap then p.base else p.cap
    ensures Ceiling(p, attempt + 1) == if 2 * Ceiling(p, attempt) < p.cap then 2 * Ceiling(p, attempt) else p.cap
  {
    var power := Pow2(attempt);
    assert Pow2(attempt + 1) == 2 * power;
    assert p.base * (2 * power) == 2 * (p.base * power);
    Scales(p.base, power);
  }

  /** The delay is half the ceiling and as much of the other half as was drawn, to the nearest millisecond, upwards from
      the middle. */
  lemma DelayExactly(p: Policy, attempt: int, random: Jitter)
    ensures
      var half := Ceiling(p, attempt) as real / 2.0;
      var delay := RetryDelay(p, attempt, random) as real;
      delay - 0.5 <= half + random * half < delay + 0.5
  {
  }

  /** The refusals that clear on their own. */
  predicate WorthRetrying(kind: Kind, answer: Answer) {
    || (answer.Refusal? && answer.status == 409 && answer.code == "controller_busy")
    || (&& answer.Refusal? && kind == Acquire && answer.status == 409
        && (|| answer.code == "profile_in_use" || answer.code == "capacity_busy"
            || answer.code == "profile_stop_pending" || answer.code == "unknown"))
    || (answer.Refusal? && kind == Acquire && answer.status == 503 && answer.code == "profile_stop_pending")
  }

  lemma RetryableExactly(kind: Kind, answer: Answer)
    ensures Retryable(kind, answer) <==> WorthRetrying(kind, answer)
  {
  }

  // ------------------------------------------------------------ the loop

  /** What a run of the loop meets: how long its turn took, each answer and random draw, how long each exchange
      lasted and how much longer than asked each sleep. */
  datatype Env = Env(queued: nat, answer: nat -> Answer, random: nat -> Jitter, took: nat -> nat, late: nat -> nat)

  /** Milliseconds since the call when answer `k` was in. */
  function Clock(p: Policy, env: Env, k: nat): int {
    if k == 0 then env.queued + env.took(0)
    else Clock(p, env, k - 1) + RetryDelay(p, k - 1, env.random(k - 1)) + env.late(k - 1) + env.took(k)
  }

  function TotalTook(env: Env, n: nat): int {
    if n == 0 then 0 else TotalTook(env, n - 1) + env.took(n - 1)
  }

  function TotalLate(env: Env, n: nat): int {
    if n == 0 then 0 else TotalLate(env, n - 1) + env.late(n - 1)
  }

  /** The clock counts the turn waited for, every exchange so far, every delay between them, and all that the sleeps
      took longer. */
  lemma {:induction false} ClockExactly(p: Policy, env: Env, k: nat)
    ensures Clock(p, env, k) == env.queued + TotalTook(env, k + 1) + TotalDelay(p, env, k) + TotalLate(env, k)
  {
    if k > 0 {
      ClockExactly(p, env, k - 1);
    } else {
      assert TotalTook(env, 1) == TotalTook(env, 0) + env.took(0);
    }
  }

  /** What has passed since the call when answer `k` is in, with the delay that would follow. */
  function Elapsed(p: Policy, env: Env, k: nat): int {
    env.queued + TotalTook(env, k + 1) + TotalDelay(p, env, k + 1) + TotalLate(env, k)
  }

  /** The loop sleeps and asks again after answer `k`: it is worth a retry, and the delay still fits. */
  predicate AsksAgain(kind: Kind, p: Policy, budget: int, env: Env, k: nat) {
    WorthRetrying(kind, env.answer(k)) && Elapsed(p, env, k) <= budget
  }

  lemma GoesOnExactly(kind: Kind, p: Policy, budget: int, env: Env, k: nat)
    ensures GoesOn(kind, p, budget, env, k) <==> AsksAgain(kind, p, budget, env, k)
  {
    RetryableExactly(kind, env.answer(k));
    ClockExactly(p, env, k);
    assert TotalDelay(p, env, k + 1) == TotalDelay(p, env, k) + RetryDelay(p, k, env.random(k));
  }

  predicate GoesOn(kind: Kind, p: Policy, budget: int, env: Env, k: nat) {
    Retryable(kind, env.answer(k)) && Clock(p, env, k) + RetryDelay(p, k, env.random(k)) <= budget
  }

  /** Request number `n` is sent: every answer before it was worth a retry for which there was time. */
  ghost predicate Sends(kind: Kind, p: Policy, budget: int, env: Env, n: nat) {
    forall k: nat | k + 1 < n :: GoesOn(kind, p, budget, env, k)
  }

  function TotalDelay(p: Policy, env: Env, n: nat): int {
    if n == 0 then 0 else TotalDelay(p, env, n - 1) + RetryDelay(p, n - 1, env.random(n - 1))
  }

  function MinTotal(p: Policy, n: nat): int {
    if n == 0 then 0 else MinTotal(p, n - 1) + RetryDelay(p, n - 1, 0.0)
  }

  lemma {:induction false} ClockCoversDelays(p: Policy, env: Env, n: nat)
    ensures TotalDelay(p, env, n) <= Clock(p, env, n)
  {
    if n > 0 {
      ClockCoversDelays(p, env, n - 1);
    }
  }

  lemma {:induction false} DelaysGrow(p: Policy, env: Env, n: nat)
    requires Sound(p)
    ensures n <= MinTotal(p, n) <= TotalDelay(p, env, n)
  {
    if n > 0 {
      DelaysGrow(p, env, n - 1);
      DelayBounds(p, n - 1, env.random(n - 1));
    }
  }

  /** The back-off delays before request `n` add up to no more than the budget, for every sequence of answers,
      random draws and clocks; so a request is sent only while the least possible back-off fits. */
  lemma BudgetBoundsRequests(kind: Kind, p: Policy, budget: nat, env: Env, n: nat)
    requires Sound(p) && n >= 1 && Sends(kind, p, budget, env, n)
    ensures TotalDelay(p, env, n - 1) <= budget
    ensures MinTotal(p, n - 1) <= budget && n <= budget + 1
  {
    if n > 1 {
      assert GoesOn(kind, p, budget, env, n - 2);
      ClockCoversDelays(p, env, n - 2);
    }
    DelaysGrow(p, env, n - 1);
  }

  datatype Outcome = Success | GivenUp(answer: Answer)

  /** The request loop of an acquire, a renewal or a release. It always ends. */
  method Exchange(kind: Kind, p: Policy, budget: nat, env: Env) returns (outcome: Outcome, attempts: nat)
    requires Sound(p)
    ensures attempts >= 1 && Sends(kind, p, budget, env, attempts)
    ensures !GoesOn(kind, p, budget, env, attempts - 1)
    ensures outcome == (if env.answer(attempts - 1).Accepted? then Success else GivenUp(env.answer(attempts - 1)))
    ensures MinTotal(p, attempts - 1) <= budget
    ensures forall k: nat | k < attempts - 1 :: AsksAgain(kind, p, budget, env, k)
    ensures !AsksAgain(kind, p, budget, env, attempts - 1)
  {
    forall k: nat ensures GoesOn(kind, p, budget, env, k) <==> AsksAgain(kind, p, budget, env, k) {
      GoesOnExactly(kind, p, budget, env, k);
    }
    var now := env.queued;
    attempts := 0;
    while true
      invariant Sends(kind, p, budget, env, attempts + 1)
      invariant now + env.took(attempts) == Clock(p, env, attempts)
      decreases budget - attempts
    {
      attempts := attempts + 1;
      BudgetBoundsRequests(kind, p, budget, env, attempts);
      var response := env.answer(attempts - 1);
      now := now + env.took(attempts - 1);
      if response.Accepted? {
        return Success, attempts;
      }
      if !Retryable(kind, response) {
        return GivenUp(response), attempts;
      }
      var delay := RetryDelay(p, attempts - 1, env.random(attempts - 1));
      if now + delay > budget {
        return GivenUp(response), attempts;
      }
      now := now + delay + env.late(attempts - 1);
      assert GoesOn(kind, p, budget, env, attempts - 1);
      BudgetBoundsRequests(kind, p, budget, env, attempts + 1);
    }
  }

  // ------------------------------------------------------------ the default policy

  lemma {:induction false} CappedCeiling(attempt: nat)
    ensures Ceiling(DEFAULT, attempt) ==
      if attempt == 0 then 250 else if attempt == 1 then 500 else if attempt == 2 then 1000
                                         else if attempt == 3 then 2000 else if attempt == 4 then 4000 else 5000
  {
    if attempt >= 5 {
      PowersGrow(attempt);
    } else {
      assert Pow2(0) == 1 && Pow2(1) == 2 && Pow2(2) == 4 && Pow2(3) == 8 && Pow2(4) == 16;
    }
  }

  lemma {:induction false} PowersGrow(n: nat)
    requires n >= 5
    ensures Pow2(n) >= 32
  {
    if n > 5 {
      PowersGrow(n - 1);
    } else {
      assert Pow2(2) == 4 && Pow2(3) == 8 && Pow2(4) == 16 && Pow2(5) == 32;
    }
  }

  /** The least back-off of the default policy before request `n + 1`. */
  lemma {:induction false} DefaultMinTotal(n: nat)
    ensures n >= 5 ==> MinTotal(DEFAULT, n) == 3875 + 2500 * (n - 5)
    ensures n < 5 ==> MinTotal(DEFAULT, n) <= 1875
  {
    if n > 0 {
      DefaultMinTotal(n - 1);
      CappedCeiling(n - 1);
    }
    if n == 4 || n == 5 {
      CappedCeiling(0);
      CappedCeiling(1);
      CappedCeiling(2);
      CappedCeiling(3);
    }
    assert MinTotal(DEFAULT, 0) == 0;
  }

  /** The most requests one call can send with the default policy and budgets. */
  function Most(budget: nat): nat {
    if budget == 90_000 then 40 else if budget == 20_000 then 12 else 10
  }

  lemma DefaultBounds(kind: Kind, budget: nat, env: Env, n: nat)
    requires budget == 90_000 || budget == 20_000 || budget == 15_000
    requires n >= 1 && Sends(kind, DEFAULT, budget, env, n)
    ensures n <= Most(budget)
  {
    BudgetBoundsRequests(kind, DEFAULT, budget, env, n);
    DefaultMinTotal(n - 1);
  }

  const UNLUCKY: Env :=
    Env(0, (_: nat) => Refusal(409, "controller_busy"), (_: nat) => 0.0, (_: nat) => 0, (_: nat) => 0)

  lemma {:induction false} UnluckyClock(n: nat)
    ensures Clock(DEFAULT, UNLUCKY, n) == MinTotal(DEFAULT, n)
  {
    if n > 0 {
      UnluckyClock(n - 1);
    }
  }

  /** The bounds are reached: with instant refusals, exact sleeps and random draws of zero. */
  lemma BoundsAreReached(kind: Kind, budget: nat, n: nat)
    requires budget == 90_000 || budget == 20_000 || budget == 15_000
    requires n <= Most(budget)
    ensures Sends(kind, DEFAULT, budget, UNLUCKY, n)
  {
    forall k: nat | k + 1 < n ensures GoesOn(kind, DEFAULT, budget, UNLUCKY, k) {
      UnluckyClock(k);
      DefaultMinTotal(k + 1);
    }
  }
}
