/** The retry policy, and the ladder both model clients climb. */
module Retry {

  function Pow2(n: nat): real {
    if n == 0 then 1.0 else 2.0 * Pow2(n - 1)
  }

  /** The pause after the failure of `attempt`, counting from 1. */
  function BackoffDelay(attempt: nat, base: real): real
    requires attempt >= 1
  {
    base * Pow2(attempt - 1)
  }

  function Sum(pauses: seq<real>): real {
    if pauses == [] then 0.0 else Sum(pauses[..|pauses| - 1]) + pauses[|pauses| - 1]
  }

  /** The pauses after the attempts `from` .. `to - 1`, as the loop makes them. */
  function Pauses(from: nat, to: nat, base: real): (r: seq<real>)
    requires 1 <= from <= to
    ensures |r| == to - from
    ensures forall i :: 0 <= i < |r| ==> r[i] == BackoffDelay(from + i, base)
  {
    seq(to - from, i requires 0 <= i < to - from => BackoffDelay(from + i, base))
  }

  lemma DelayDoubles(attempt: nat, base: real)
    requires attempt >= 1
    ensures BackoffDelay(attempt + 1, base) == BackoffDelay(attempt, base) + BackoffDelay(attempt, base)
  {
  }

  /** Doubling pauses add up to the next one minus the first. */
  lemma {:induction false} PausesSum(from: nat, to: nat, base: real)
    requires 1 <= from <= to
    ensures Sum(Pauses(from, to, base)) == BackoffDelay(to, base) - BackoffDelay(from, base)
  {
    if from < to {
      PausesSum(from, to - 1, base);
      DelayDoubles(to - 1, base);
      assert Pauses(from, to, base)[..to - 1 - from] == Pauses(from, to - 1, base);
    }
  }

  /** The geometric sum in closed form: all the pauses of a ladder that makes `made` attempts. */
  lemma PausesClosedForm(made: nat, base: real)
    requires made >= 1
    ensures Sum(Pauses(1, made, base)) == base * (Pow2(made - 1) - 1.0)
  {
    PausesSum(1, made, base);
    assert Pow2(0) == 1.0;
    assert base * (Pow2(made - 1) - 1.0) == base * Pow2(made - 1) - base * 1.0;
  }

  /** The waiting still to come after this attempt, in closed form. */
  function Budget(attempt: nat, maxAttempts: nat, base: real): real
    requires 1 <= attempt <= maxAttempts
  {
    base * (Pow2(maxAttempts - 1) - Pow2(attempt - 1))
  }

  /** The budget left after `attempt` is the same sum over the attempts still to come. */
  lemma BudgetClosedForm(attempt: nat, maxAttempts: nat, base: real)
    requires 1 <= attempt <= maxAttempts
    ensures Sum(Pauses(attempt, maxAttempts, base)) == Budget(attempt, maxAttempts, base)
  {
    PausesSum(attempt, maxAttempts, base);
    var x, y := Pow2(maxAttempts - 1), Pow2(attempt - 1);
    assert base * (x - y) == base * x - base * y;
  }

  /** The pauses from this attempt to the last one, added up. */
  method RemainingBackoff(attempt: nat, maxAttempts: nat, base: real) returns (budget: real)
    requires attempt >= 1
    ensures attempt <= maxAttempts ==> budget == Sum(Pauses(attempt, maxAttempts, base))
    ensures attempt >= maxAttempts ==> budget == 0.0
  {
    budget := 0.0;
    var later := attempt;
    while later < maxAttempts
      invariant attempt <= later && (later <= maxAttempts || later == attempt)
      invariant budget == Sum(Pauses(attempt, later, base))
    {
      assert Pauses(attempt, later + 1, base)[..later - attempt] == Pauses(attempt, later, base);
      budget := budget + BackoffDelay(later, base);
      later := later + 1;
    }
  }

  /** What a Retry-After header says, as `float` reads it. */
  datatype Advice = NoAdvice | Seconds(s: real) | Forever | NotANumber

  /** Whether waiting as advised is more than the budget; a NaN never is. */
  predicate Exceeds(advice: Advice, budget: real) {
    match advice
    case Seconds(s) => s > budget
    case Forever => true
    case _ => false
  }

  /** One attempt at the call; a rate limit is an error class of its own, above other statuses. */
  datatype Attempt =
    | Succeeded
    | ConnectionFailed
    | RateLimited(advice: Advice)
    | StatusFailed(code: int)
    | OtherSdkError

  datatype Outcome = Returned(attempt: nat) | QuotaExceeded(advice: Advice) | Unavailable

  /** Failures the ladder goes on after: connection, server side, and limits short enough. */
  predicate Transient(a: Attempt) {
    a.ConnectionFailed? || a.RateLimited? || (a.StatusFailed? && a.code >= 500)
  }

  /** Every pause the server asked for before the last attempt had passed by then. */
  ghost predicate Waited(calls: nat -> Attempt, made: nat, pauses: seq<real>)
    requires |pauses| == made - 1
  {
    forall n :: 1 <= n < made && calls(n).RateLimited? && calls(n).advice.Seconds? ==>
      calls(n).advice.s <= Sum(pauses[n - 1..])
  }

  /**
   * What is worth another attempt, with this much waiting still to come: a lost connection, a server
   * error, and a rate limit unless it asks for a longer wait than that. One that does not say, or says
   * what is not a number, is.
   */
  predicate WorthRetrying(a: Attempt, budget: real) {
    match a
    case ConnectionFailed => true
    case StatusFailed(code) => code >= 500
    case RateLimited(NoAdvice) => true
    case RateLimited(NotANumber) => true
    case RateLimited(Seconds(s)) => s <= budget
    case RateLimited(Forever) => false
    case Succeeded => false
    case OtherSdkError => false
  }

  lemma AcceptedIff(a: Attempt, attempt: nat, maxAttempts: nat, base: real)
    requires 1 <= attempt <= maxAttempts
    ensures WorthRetrying(a, Budget(attempt, maxAttempts, base))
       <==> Transient(a) && Accepted(a, attempt, maxAttempts, base)
  {
    BudgetClosedForm(attempt, maxAttempts, base);
  }

  /** Powers of two, by what they are at 0 and from one to the next. */
  lemma PowersDouble(n: nat)
    ensures Pow2(0) == 1.0 && Pow2(n + 1) == Pow2(n) + Pow2(n)
  {
  }

  predicate Doubling(pauses: seq<real>, base: real) {
    && (pauses != [] ==> pauses[0] == base)
    && forall i :: 0 <= i < |pauses| - 1 ==> pauses[i + 1] == pauses[i] + pauses[i]
  }

  lemma PausesDouble(made: nat, base: real)
    requires made >= 1
    ensures Doubling(Pauses(1, made, base), base)
  {
    var pauses := Pauses(1, made, base);
    assert BackoffDelay(1, base) == base by { assert Pow2(0) == 1.0; }
    forall i | 0 <= i < |pauses| - 1 ensures pauses[i + 1] == pauses[i] + pauses[i] {
      DelayDoubles(i + 1, base);
    }
  }

  /**
   * Climb the ladder. `calls(n)` is what the n-th attempt meets; `made` attempts are made, and
   * `pauses` are the pauses between them.
   */
  method Climb(calls: nat -> Attempt, maxAttempts: nat, base: real)
    returns (outcome: Outcome, made: nat, pauses: seq<real>)
    requires maxAttempts >= 1
    ensures 1 <= made <= maxAttempts
    // the first pause is the base, and each one doubles the last
    ensures pauses == Pauses(1, made, base) && Doubling(pauses, base)
    // every attempt but the last failed in a way worth another one, and the last in none, unless there were no more
    ensures forall n :: 1 <= n < made ==> WorthRetrying(calls(n), Budget(n, maxAttempts, base))
    ensures made < maxAttempts ==> !WorthRetrying(calls(made), Budget(made, maxAttempts, base))
    // a ladder climbed to the end has waited, after each rate limit it met, as long as it was told to
    ensures made == maxAttempts ==> Waited(calls, made, pauses)
    // success is returned as such, and nothing else is
    ensures outcome.Returned? <==> calls(made).Succeeded?
    ensures outcome.Returned? ==> outcome.attempt == made
    // the error is the quota error exactly when the last failure was a rate limit
    ensures outcome.QuotaExceeded? <==> calls(made).RateLimited?
    ensures outcome.QuotaExceeded? ==> outcome.advice == calls(made).advice
  {
    outcome, made, pauses := ClimbWithin(calls, maxAttempts, base);
    PausesDouble(made, base);
    forall n | 1 <= n <= made
      ensures WorthRetrying(calls(n), Budget(n, maxAttempts, base))
         <==> Transient(calls(n)) && Accepted(calls(n), n, maxAttempts, base)
    {
      AcceptedIff(calls(n), n, maxAttempts, base);
    }
  }

  /** The loop, with what it promises of each attempt in terms of the pauses still to come. */
  method ClimbWithin(calls: nat -> Attempt, maxAttempts: nat, base: real)
    returns (outcome: Outcome, made: nat, pauses: seq<real>)
    requires maxAttempts >= 1
    ensures 1 <= made <= maxAttempts && pauses == Pauses(1, made, base)
    ensures forall n :: 1 <= n < made ==> Transient(calls(n)) && Accepted(calls(n), n, maxAttempts, base)
    ensures made < maxAttempts ==> !Transient(calls(made)) || !Accepted(calls(made), made, maxAttempts, base)
    ensures made == maxAttempts ==> Waited(calls, made, pauses)
    ensures outcome.Returned? <==> calls(made).Succeeded?
    ensures outcome.Returned? ==> outcome.attempt == made
    ensures outcome.QuotaExceeded? <==> calls(made).RateLimited?
    ensures outcome.QuotaExceeded? ==> outcome.advice == calls(made).advice
  {
    pauses := [];
    var lastError := Succeeded;
    made := 0;
    while made < maxAttempts
      invariant 0 <= made <= maxAttempts
      invariant pauses == Pauses(1, if made == 0 then 1 else if made < maxAttempts then made + 1 else made, base)
      invariant made > 0 ==> lastError == calls(made)
      invariant forall n :: 1 <= n <= made ==> Transient(calls(n)) && Accepted(calls(n), n, maxAttempts, base)
    {
      made := made + 1;
      if made == maxAttempts { AcceptedAdviceElapses(calls, maxAttempts, base); }
      var met := calls(made);
      match met {
        case Succeeded =>
          return Returned(made), made, pauses;
        case ConnectionFailed => lastError := met;
        case RateLimited(advice) =>
          var budget := RemainingBackoff(made, maxAttempts, base);
          if Exceeds(advice, budget) {
            return QuotaExceeded(advice), made, pauses;
          }
          lastError := met;
        case StatusFailed(code) =>
          if code < 500 {
            return Unavailable, made, pauses;
          }
          lastError := met;
        case OtherSdkError =>
          return Unavailable, made, pauses;
      }
      if made < maxAttempts {
        assert Pauses(1, made + 1, base)[..made - 1] == Pauses(1, made, base);
        pauses := pauses + [BackoffDelay(made, base)];
      }
    }
    AcceptedAdviceElapses(calls, maxAttempts, base);
    return (if lastError.RateLimited? then QuotaExceeded(lastError.advice) else Unavailable), made, pauses;
  }

  /** A rate limit is waited out only if what is left of the ladder covers it. */
  ghost predicate Accepted(a: Attempt, attempt: nat, maxAttempts: nat, base: real)
    requires 1 <= attempt <= maxAttempts
  {
    a.RateLimited? ==> !Exceeds(a.advice, Sum(Pauses(attempt, maxAttempts, base)))
  }

  lemma AcceptedAdviceElapses(calls: nat -> Attempt, maxAttempts: nat, base: real)
    requires maxAttempts >= 1
    requires forall n :: 1 <= n < maxAttempts ==> Accepted(calls(n), n, maxAttempts, base)
    ensures Waited(calls, maxAttempts, Pauses(1, maxAttempts, base))
  {
    var pauses := Pauses(1, maxAttempts, base);
    forall n | 1 <= n < maxAttempts && calls(n).RateLimited? && calls(n).advice.Seconds?
      ensures calls(n).advice.s <= Sum(pauses[n - 1..])
    {
      assert pauses[n - 1..] == Pauses(n, maxAttempts, base);
      assert Accepted(calls(n), n, maxAttempts, base);
    }
  }
}
