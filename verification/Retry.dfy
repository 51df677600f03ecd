/**
 * Retrying with exponential back-off (apps/frontend/src/lib/retry.ts).  The
 * k-th call of the retried function is the k-th element of an arbitrary
 * sequence of attempts; numbers are exact.
 */
module Retry {
  import opened Prelude
  import Text

  // ---------------------------------------------------------------- which errors are transient

  /** Anything that can be thrown; `Nothing` is `null` or `undefined`. */
  datatype Error = Nothing | Thrown(responseStatus: HttpStatus, status: HttpStatus, message: Option<string>)

  const DEFINITIVE: seq<string> := ["insufficient", "balance", "rejected", "invalid signature", "bad auth", "unauthorized"]

  const TRANSIENT: seq<string> := ["timeout", "timed out", "network error", "network request failed", "econnreset", "econnrefused",
    "fetch failed", "503", "504", "429", "sequence", "eagain", "try again", "rate limit", "service unavailable"]

  function StatusOf(e: Error): HttpStatus
    requires e.Thrown?
  {
    if e.responseStatus.Missing? then e.status else e.responseStatus
  }

  function MessageOf(e: Error): string
    requires e.Thrown?
  {
    if e.message.Some? then Text.Lower(e.message.value) else ""
  }

  /** `isTransientError` */
  predicate IsTransient(e: Error) {
    if e.Nothing? then false
    else
      var status := StatusOf(e);
      if status == Code(400) || status == Code(401) || status == Code(403) then false
      else if status == Code(429) || status == Code(503) || status == Code(504) then true
      else if Text.ContainsAny(MessageOf(e), DEFINITIVE) then false
      else if Text.ContainsAny(MessageOf(e), TRANSIENT) then true
      else true
  }

  /** The status looked at: that of the response, or else the error's own. */
  predicate HasStatus(e: Error, code: int) {
    e.Thrown? && (e.responseStatus == Code(code) || (e.responseStatus == Missing && e.status == Code(code)))
  }

  predicate Says(e: Error, phrase: string) {
    e.Thrown? && e.message.Some? && Text.Mentions(e.message.value, phrase)
  }

  predicate SaysDefinitive(e: Error) {
    || Says(e, "insufficient") || Says(e, "balance") || Says(e, "rejected")
    || Says(e, "invalid signature") || Says(e, "bad auth") || Says(e, "unauthorized")
  }

  lemma {:induction false} PhraseIff(e: Error, phrase: string)
    requires e.Thrown? && Text.AllLower(phrase) && phrase != ""
    ensures Text.Contains(MessageOf(e), phrase) <==> Says(e, phrase)
  {
    if e.message.Some? { Text.ContainsIs(e.message.value, phrase); }
  }

  lemma {:induction false} DefinitiveSays(e: Error)
    requires e.Thrown?
    ensures Text.ContainsAny(MessageOf(e), DEFINITIVE) <==> SaysDefinitive(e)
  {
    PhraseIff(e, DEFINITIVE[0]);
    PhraseIff(e, DEFINITIVE[1]);
    PhraseIff(e, DEFINITIVE[2]);
    PhraseIff(e, DEFINITIVE[3]);
    PhraseIff(e, DEFINITIVE[4]);
    PhraseIff(e, DEFINITIVE[5]);
  }

  /**
   * Exactly which errors are final: the list of transient phrases never
   * decides, and a status that settles the question beats the message.
   */
  lemma {:induction false} DefinitiveIff(e: Error)
    ensures !IsTransient(e) <==>
      || e.Nothing? || HasStatus(e, 400) || HasStatus(e, 401) || HasStatus(e, 403)
      || (!HasStatus(e, 429) && !HasStatus(e, 503) && !HasStatus(e, 504) && SaysDefinitive(e))
  {
    if e.Thrown? { DefinitiveSays(e); }
  }

  // ---------------------------------------------------------------- the loop

  datatype Attempt<T> = Returns(value: T) | Throws(error: Error)

  datatype Outcome<T> = Returned(value: T) | Threw(error: Error)

  function OutcomeOf<T>(a: Attempt<T>): Outcome<T> {
    match a
    case Returns(value) => Returned(value)
    case Throws(error) => Threw(error)
  }

  predicate CanRetry<T>(a: Attempt<T>) {
    a.Throws? && IsTransient(a.error)
  }

  predicate AllRetry<T>(fn: nat -> Attempt<T>, n: nat) {
    forall i: nat :: i < n ==> CanRetry(fn(i))
  }

  function Pow2(n: nat): nat {
    if n == 0 then 1 else 2 * Pow2(n - 1)
  }

  /** How often `attempt < maxAttempts` holds for 0, 1, 2, ... */
  function Limit(maxAttempts: real): nat {
    if maxAttempts <= 0.0 then 0 else -((0.0 - maxAttempts).Floor)
  }

  /** The `onRetry` notifications before the first `n` waits. */
  function Notices<T>(fn: nat -> Attempt<T>, n: nat): seq<(nat, Error)>
    requires AllRetry(fn, n)
  {
    if n == 0 then [] else Notices(fn, n - 1) + [(n, fn(n - 1).error)]
  }

  /** Waits before the outcome; with a fractional limit the last failure is waited for as well. */
  function Waits<T>(fn: nat -> Attempt<T>, maxAttempts: real, calls: nat): nat
    requires calls > 0
  {
    if CanRetry(fn(calls - 1)) && calls as real != maxAttempts then calls else calls - 1
  }

  /** The time slept in the first `n` waits. */
  function Slept(base: real, n: nat): real {
    if n == 0 then 0.0 else Slept(base, n - 1) + base * Pow2(n - 1) as real
  }

  /** What a run of the loop has done. */
  ghost predicate Retried<T>(fn: nat -> Attempt<T>, maxAttempts: real, baseDelayMs: real,
                             outcome: Outcome<T>, calls: nat, notices: seq<(nat, Error)>, slept: real)
  {
    if Limit(maxAttempts) == 0 then outcome == Threw(Nothing) && calls == 0 && notices == [] && slept == 0.0
    else
      && 1 <= calls <= Limit(maxAttempts)
      && AllRetry(fn, calls - 1)
      && (calls == Limit(maxAttempts) || !CanRetry(fn(calls - 1)))
      && outcome == OutcomeOf(fn(calls - 1))
      && notices == Notices(fn, Waits(fn, maxAttempts, calls))
      && slept == Slept(baseDelayMs, Waits(fn, maxAttempts, calls))
  }

  lemma {:induction false} LimitIs(maxAttempts: real, n: nat)
    ensures n as real < maxAttempts <==> n < Limit(maxAttempts)
    ensures maxAttempts == n as real ==> Limit(maxAttempts) == n
  {}

  /** `n` waits, each twice as long as the one before. */
  lemma {:induction false} SleptIs(base: real, n: nat)
    ensures Slept(base, n) == base * (Pow2(n) - 1) as real
  {
    if n > 0 {
      SleptIs(base, n - 1);
      var p := Pow2(n - 1) as real;
      assert (Pow2(n) - 1) as real == (p - 1.0) + p;
      assert base * ((p - 1.0) + p) == base * (p - 1.0) + base * p;
    }
  }

  /** `retryWithBackoff` */
  method RetryWithBackoff<T>(fn: nat -> Attempt<T>, maxAttempts: real, baseDelayMs: real)
    returns (outcome: Outcome<T>, calls: nat, notices: seq<(nat, Error)>, slept: real)
    ensures Retried(fn, maxAttempts, baseDelayMs, outcome, calls, notices, slept)
  {
    var lastError := Nothing;
    notices, slept := [], 0.0;
    var attempt := 0;
    while attempt as real < maxAttempts
      invariant attempt <= Limit(maxAttempts) && AllRetry(fn, attempt)
      invariant attempt > 0 ==> attempt as real != maxAttempts
      invariant lastError == if attempt == 0 then Nothing else fn(attempt - 1).error
      invariant notices == Notices(fn, attempt)
      invariant slept == Slept(baseDelayMs, attempt)
      decreases Limit(maxAttempts) - attempt
    {
      LimitIs(maxAttempts, attempt);
      LimitIs(maxAttempts, attempt + 1);
      var result := fn(attempt);
      if result.Returns? {
        return Returned(result.value), attempt + 1, notices, slept;
      }
      lastError := result.error;
      if !IsTransient(lastError) {
        return Threw(lastError), attempt + 1, notices, slept;
      }
      if attempt as real == maxAttempts - 1.0 {
        return Threw(lastError), attempt + 1, notices, slept;
      }
      notices := notices + [(attempt + 1, lastError)];
      slept := slept + baseDelayMs * Pow2(attempt) as real;
      attempt := attempt + 1;
    }
    LimitIs(maxAttempts, attempt);
    outcome, calls := Threw(lastError), attempt;
  }

  // ---------------------------------------------------------------- what that means

  /** The first attempt, within the limit, that is not a transient failure. */
  predicate Decides<T>(fn: nat -> Attempt<T>, limit: nat, k: nat) {
    k < limit && AllRetry(fn, k) && !CanRetry(fn(k))
  }

  lemma {:induction false} LastCall<T>(fn: nat -> Attempt<T>, maxAttempts: real, base: real,
      outcome: Outcome<T>, calls: nat, notices: seq<(nat, Error)>, slept: real)
    requires Retried(fn, maxAttempts, base, outcome, calls, notices, slept) && calls > 0
    ensures Decides(fn, Limit(maxAttempts), calls - 1) || (calls == Limit(maxAttempts) && AllRetry(fn, calls))
  {
    if CanRetry(fn(calls - 1)) {
      forall i: nat | i < calls ensures CanRetry(fn(i)) {
        assert i == calls - 1 || i < calls - 1;
      }
    }
  }

  /** The description of a run leaves nothing open. */
  lemma {:induction false} RunIsDetermined<T>(fn: nat -> Attempt<T>, maxAttempts: real, base: real,
      outcome: Outcome<T>, calls: nat, notices: seq<(nat, Error)>, slept: real,
      outcome': Outcome<T>, calls': nat, notices': seq<(nat, Error)>, slept': real)
    requires Retried(fn, maxAttempts, base, outcome, calls, notices, slept)
    requires Retried(fn, maxAttempts, base, outcome', calls', notices', slept')
    ensures outcome == outcome' && calls == calls' && notices == notices' && slept == slept'
  {
    if calls > 0 {
      LastCall(fn, maxAttempts, base, outcome, calls, notices, slept);
      LastCall(fn, maxAttempts, base, outcome', calls', notices', slept');
    }
  }

  /**
   * The first success or definitive error within the limit is the outcome;
   * when there is none, the last attempt's error is.
   */
  lemma {:induction false} FirstDecisionWins<T>(fn: nat -> Attempt<T>, maxAttempts: real, base: real,
      outcome: Outcome<T>, calls: nat, notices: seq<(nat, Error)>, slept: real, k: nat)
    requires Retried(fn, maxAttempts, base, outcome, calls, notices, slept)
    ensures Decides(fn, Limit(maxAttempts), k) ==> outcome == OutcomeOf(fn(k)) && calls == k + 1
    ensures AllRetry(fn, Limit(maxAttempts)) && Limit(maxAttempts) > 0 ==>
      calls == Limit(maxAttempts) && outcome == Threw(fn(calls - 1).error)
    ensures outcome.Returned? <==> exists j: nat :: Decides(fn, Limit(maxAttempts), j) && fn(j).Returns?
  {
    if calls > 0 {
      LastCall(fn, maxAttempts, base, outcome, calls, notices, slept);
    }
  }

  /** With a whole limit, n calls cost base * (2^(n-1) - 1); a fractional one waits once more, for nothing, when all fail. */
  lemma {:induction false} Cost<T>(fn: nat -> Attempt<T>, maxAttempts: real, base: real,
      outcome: Outcome<T>, calls: nat, notices: seq<(nat, Error)>, slept: real)
    requires Retried(fn, maxAttempts, base, outcome, calls, notices, slept) && calls > 0
    ensures slept == base * (Pow2(calls - 1) - 1) as real
      || (slept == base * (Pow2(calls) - 1) as real && calls as real > maxAttempts && AllRetry(fn, calls))
    ensures maxAttempts == maxAttempts.Floor as real ==> slept == base * (Pow2(calls - 1) - 1) as real && |notices| == calls - 1
    ensures AllRetry(fn, calls) && maxAttempts != maxAttempts.Floor as real ==> slept == base * (Pow2(calls) - 1) as real && |notices| == calls
  {
    LimitIs(maxAttempts, calls);
    LimitIs(maxAttempts, calls - 1);
    SleptIs(base, calls);
    SleptIs(base, calls - 1);
    NoticesCount(fn, Waits(fn, maxAttempts, calls));
    LastCall(fn, maxAttempts, base, outcome, calls, notices, slept);
    if maxAttempts == maxAttempts.Floor as real { LimitIs(maxAttempts, maxAttempts.Floor); }
  }

  lemma {:induction false} NoticesCount<T>(fn: nat -> Attempt<T>, n: nat)
    requires AllRetry(fn, n)
    ensures |Notices(fn, n)| == n
    ensures forall i :: 0 <= i < n ==> Notices(fn, n)[i] == (i + 1, fn(i).error)
  {
    if n > 0 { NoticesCount(fn, n - 1); }
  }
}
