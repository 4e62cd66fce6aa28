/**
 The bounded retry loop every outgoing request goes through (src/http.rs). Durations are in
 milliseconds. What the server answers, and how long each attempt takes, is an arbitrary function
 of the attempt number.
 */
module Http {
  import opened Wrappers
  import opened Ids
  import opened Text

  const MAX_RETRY_AFTER: nat := 30_000
  const U32_MAX: nat := 0xffff_ffff
  const U64_MAX: nat := 0xffff_ffff_ffff_ffff
  /** `Duration::MAX`, to the millisecond. */
  const DURATION_MAX: nat := U64_MAX * 1_000 + 999
  /** The per-request timeout the Slack and Mastodon clients are built with. */
  const REQUEST_TIMEOUT: nat := 30_000

  datatype RetryConfig = RetryConfig(maxRetries: nat, baseDelay: nat)

  const DEFAULT_RETRY := RetryConfig(3, 500)

  datatype Reply =
    | Response(status: nat, retryAfter: Option<string>, took: nat)
    | RequestError(transient: bool, took: nat)

  function Pow2(n: nat): (p: nat)
    ensures p > 0
  {
    if n == 0 then 1 else 2 * Pow2(n - 1)
  }

  /** `RetryConfig::backoff`, with both saturations. */
  function Backoff(retry: RetryConfig, attempt: nat): nat {
    Min(DURATION_MAX, retry.baseDelay * (if attempt < 32 then Pow2(attempt) else U32_MAX))
  }

  /** `str::parse::<u64>`: digits, with one optional leading `+`. */
  function ParseU64(s: string): Option<nat> {
    var digits := if s != "" && s[0] == '+' then s[1..] else s;
    if !IsNumericId(digits) then None
    else
      var value := Value(digits);
      if value <= U64_MAX then Some(value) else None
  }

  /** `retry_after`: the delay-seconds form of section 10.2.3 of RFC 9110, capped. */
  function RetryAfter(header: Option<string>): Option<nat> {
    match header
    case None => None
    case Some(text) =>
      match ParseU64(Trim(text))
      case None => None
      case Some(seconds) => Some(Min(seconds * 1_000, MAX_RETRY_AFTER))
  }

  predicate IsRetryable(reply: Reply) {
    match reply
    case Response(status, _, _) => status == 429 || 500 <= status < 600
    case RequestError(transient, _) => transient
  }

  /** How long the loop waits after a retryable reply to attempt number `attempt` (from 0). */
  function Wait(retry: RetryConfig, reply: Reply, attempt: nat): nat {
    match reply
    case RequestError(_, _) => Backoff(retry, attempt)
    case Response(_, retryAfter, _) =>
      match RetryAfter(retryAfter)
      case Some(delay) => delay
      case None => Backoff(retry, attempt)
  }

  /** Time spent on the first `attempts` attempts and on the waits between them. */
  function Elapsed(replies: nat -> Reply, retry: RetryConfig, attempts: nat): nat {
    if attempts == 0 then 0
    else
      var before := Elapsed(replies, retry, attempts - 1);
      before + (if attempts == 1 then 0 else Wait(retry, replies(attempts - 2), attempts - 2)) + replies(attempts - 1).took
  }

  /**
   `send_with_retry_raw`. The result is the first reply that is neither a 429, nor a 5xx, nor a timeout
   or failed connection, or the reply to the last attempt allowed; the loop makes at most
   `maxRetries + 1` attempts.
   */
  method SendWithRetry(replies: nat -> Reply, retry: RetryConfig)
    returns (reply: Reply, attempts: nat, elapsed: nat)
    ensures 1 <= attempts <= retry.maxRetries + 1
    ensures reply == replies(attempts - 1)
    ensures forall i :: 0 <= i < attempts - 1 ==>
              match replies(i)
              case Response(status, _, _) => status == 429 || 500 <= status <= 599
              case RequestError(transient, _) => transient
    ensures attempts <= retry.maxRetries ==>
              match reply
              case Response(status, _, _) => status != 429 && (status < 500 || status > 599)
              case RequestError(transient, _) => !transient
    ensures elapsed == Elapsed(replies, retry, attempts)
  {
    var attempt := 0;
    elapsed := 0;
    assert Elapsed(replies, retry, 0) == 0;
    while true
      invariant attempt <= retry.maxRetries
      invariant forall i :: 0 <= i < attempt ==> IsRetryable(replies(i))
      invariant elapsed == Elapsed(replies, retry, attempt) + (if attempt == 0 then 0 else Wait(retry, replies(attempt - 1), attempt - 1))
      decreases retry.maxRetries - attempt
    {
      reply := replies(attempt);
      assert Elapsed(replies, retry, attempt + 1)
          == Elapsed(replies, retry, attempt) + (if attempt == 0 then 0 else Wait(retry, replies(attempt - 1), attempt - 1)) + reply.took;
      elapsed := elapsed + reply.took;
      if IsRetryable(reply) && attempt < retry.maxRetries {
        elapsed := elapsed + Wait(retry, reply, attempt);
        attempt := attempt + 1;
      } else {
        return reply, attempt + 1, elapsed;
      }
    }
  }

  lemma Pow2At31()
    ensures Pow2(31) == 0x8000_0000
  {
    assert Pow2(8) == 256;
    assert Pow2(16) == 65_536;
    assert Pow2(24) == 16_777_216;
  }

  lemma MulMonotone(k: nat, a: nat, b: nat)
    requires a <= b
    ensures k * a <= k * b
  {
    assert k * b == k * a + k * (b - a);
  }

  lemma MulDoubles(k: nat, a: nat)
    ensures k * (2 * a) == 2 * (k * a)
  {
  }

  /** The wait doubles from one attempt to the next until a saturation is reached, and never shrinks. */
  lemma BackoffDoublesThenSaturates(retry: RetryConfig, attempt: nat)
    ensures Backoff(retry, 0) == Min(DURATION_MAX, retry.baseDelay)
    ensures attempt < 31 && 2 * Backoff(retry, attempt) <= DURATION_MAX && Backoff(retry, attempt) < DURATION_MAX
         ==> Backoff(retry, attempt + 1) == 2 * Backoff(retry, attempt)
    ensures Backoff(retry, attempt) <= Backoff(retry, attempt + 1) <= DURATION_MAX
    ensures attempt >= 32 ==> Backoff(retry, attempt + 1) == Backoff(retry, attempt)
  {
    if attempt < 31 {
      MulDoubles(retry.baseDelay, Pow2(attempt));
    } else if attempt == 31 {
      Pow2At31();
      MulMonotone(retry.baseDelay, Pow2(31), U32_MAX);
    }
  }

  lemma {:induction false} BackoffNeverShrinks(retry: RetryConfig, earlier: nat, later: nat)
    requires earlier <= later
    ensures Backoff(retry, earlier) <= Backoff(retry, later)
  {
    if earlier < later {
      BackoffNeverShrinks(retry, earlier, later - 1);
      BackoffDoublesThenSaturates(retry, later - 1);
    }
  }

  /** Every wait is a capped `Retry-After` or a backoff no longer than the last one. */
  lemma {:induction false} ElapsedIsBounded(replies: nat -> Reply, retry: RetryConfig, attempts: nat, timeout: nat, longest: nat)
    requires forall i :: 0 <= i < attempts ==> replies(i).took <= timeout
    requires longest >= MAX_RETRY_AFTER
    requires attempts >= 2 ==> longest >= Backoff(retry, attempts - 2)
    ensures attempts >= 1 ==> Elapsed(replies, retry, attempts) <= attempts * timeout + (attempts - 1) * longest
  {
    if attempts >= 2 {
      if attempts >= 3 {
        BackoffNeverShrinks(retry, attempts - 3, attempts - 2);
      }
      ElapsedIsBounded(replies, retry, attempts - 1, timeout, longest);
      assert (attempts - 1) * longest == (attempts - 2) * longest + longest;
      assert attempts * timeout == (attempts - 1) * timeout + timeout;
    } else if attempts == 1 {
      assert Elapsed(replies, retry, 1) == Elapsed(replies, retry, 0) + replies(0).took;
    }
  }

  /** The longest a request with the default retry settings may take. */
  const DELIVERY_MAX: nat := 4 * REQUEST_TIMEOUT + 3 * MAX_RETRY_AFTER

  /** With the default settings a whole delivery, retries and waits included, takes at most 210 s. */
  lemma DefaultDeliveryIsBounded(replies: nat -> Reply, attempts: nat)
    requires 1 <= attempts <= 4
    requires forall i :: 0 <= i < attempts ==> replies(i).took <= 30_000
    ensures Elapsed(replies, DEFAULT_RETRY, attempts) <= 210_000 == DELIVERY_MAX
    ensures DEFAULT_RETRY == RetryConfig(3, 500)
  {
    assert Pow2(1) == 2 && Pow2(2) == 4;
    BackoffNeverShrinks(DEFAULT_RETRY, if attempts >= 2 then attempts - 2 else 0, 2);
    ElapsedIsBounded(replies, DEFAULT_RETRY, attempts, REQUEST_TIMEOUT, MAX_RETRY_AFTER);
  }

  /** A decimal `Retry-After` is honoured up to the cap, whatever its size up to 2^64 - 1 seconds. */
  lemma RetryAfterHonoursDelaySeconds(text: string)
    requires IsNumericId(text)
    ensures RetryAfter(Some(text)) ==
            if Value(text) > U64_MAX then None
            else Some(Min(Value(text) * 1_000, MAX_RETRY_AFTER))
  {
    DigitsAreNotTrimmed(text);
  }

  lemma DigitsAreNotTrimmed(text: string)
    requires IsNumericId(text)
    ensures Trim(text) == text
  {
    assert IsDigit(text[0]) && IsDigit(text[|text| - 1]);
  }

  // ---------------------------------------------------------------------------------------------
  // The waits

  lemma {:induction false} Pow2Grows(attempt: nat)
    ensures attempt <= 31 ==> Pow2(attempt) <= 0x8000_0000
    ensures attempt >= 32 ==> Pow2(attempt) >= 0x1_0000_0000
    decreases if attempt < 32 then 32 - attempt else attempt
  {
    if attempt == 31 {
      Pow2At31();
    } else if attempt == 32 {
      Pow2At31();
      assert Pow2(32) == 2 * Pow2(31);
    } else if attempt < 31 {
      Pow2Grows(attempt + 1);
    } else {
      Pow2Grows(attempt - 1);
    }
  }

  /** The wait is the base delay times a power of two, each of the two saturating. */
  lemma BackoffIsExact(retry: RetryConfig, attempt: nat)
    ensures Backoff(retry, attempt) == Min(DURATION_MAX, retry.baseDelay * Min(Pow2(attempt), 0xffff_ffff))
  {
    Pow2Grows(attempt);
  }

  /** The header is the delay-seconds of a whole number, with or without a plus sign and whitespace around. */
  ghost predicate IsDelaySeconds(header: string, before: string, sign: string, digits: string, after: string) {
    && header == before + (sign + digits) + after && AllWhitespace(before) && AllWhitespace(after)
    && (sign == "" || sign == "+") && IsNumericId(digits) && Value(digits) <= 0xffff_ffff_ffff_ffff
  }

  lemma NumberIsTrimmed(sign: string, digits: string)
    requires (sign == "" || sign == "+") && IsNumericId(digits)
    ensures Trimmed(sign + digits)
    ensures ParseU64(sign + digits) == if Value(digits) <= U64_MAX then Some(Value(digits)) else None
  {
    var t := sign + digits;
    assert IsDigit(digits[0]) && t[|t| - 1] == digits[|digits| - 1] && IsDigit(t[|t| - 1]);
    if sign == "" {
      assert t == digits;
    } else {
      assert t[0] == '+' && t[1..] == digits;
    }
  }

  /**
   After a response that is to be retried the wait is the one it asks for in whole seconds, at most 30 s;
   without a header of that form, or after a failed request, it is the backoff.
   */
  lemma {:induction false} WaitIsExact(retry: RetryConfig, reply: Reply, attempt: nat)
    ensures reply.RequestError? || reply.retryAfter.None? ==> Wait(retry, reply, attempt) == Backoff(retry, attempt)
    ensures reply.Response? && reply.retryAfter.Some? ==>
              || (exists before, sign, digits, after :: IsDelaySeconds(reply.retryAfter.value, before, sign, digits, after)
                    && Wait(retry, reply, attempt) == Min(1_000 * Value(digits), 30_000))
              || ((forall before, sign, digits, after :: !IsDelaySeconds(reply.retryAfter.value, before, sign, digits, after))
                  && Wait(retry, reply, attempt) == Backoff(retry, attempt))
  {
    if reply.Response? && reply.retryAfter.Some? {
      var header := reply.retryAfter.value;
      var t := Trim(header);
      TrimIsExact(header, t);
      if ParseU64(t).Some? {
        var sign, digits := if t != "" && t[0] == '+' then "+" else "", if t != "" && t[0] == '+' then t[1..] else t;
        assert t == sign + digits;
        var before, after :| TrimsTo(header, t, before, after);
        assert IsDelaySeconds(header, before, sign, digits, after);
      } else {
        forall before, sign, digits, after ensures !IsDelaySeconds(header, before, sign, digits, after) {
          if IsDelaySeconds(header, before, sign, digits, after) {
            NumberIsTrimmed(sign, digits);
            TrimRemovesAround(before, sign + digits, after);
            assert false;
          }
        }
      }
    }
  }
}
