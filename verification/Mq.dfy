/**
 internal/mq/mq.go: the delay arithmetic shared by every driver, and the typed requeue directive.
 Durations are int64 nanoseconds in the source, so products are wrapped explicitly.
 */
module Mq {
  const TWO_TO_THE_32: int := 0x1_0000_0000
  const TWO_TO_THE_63: int := 0x8000_0000_0000_0000
  const TWO_TO_THE_64: int := 0x1_0000_0000_0000_0000

  newtype uint32 = x: int | 0 <= x < 0x1_0000_0000

  predicate IsInt64(x: int) {
    -TWO_TO_THE_63 <= x < TWO_TO_THE_63
  }

  /** Two's-complement truncation to 64 bits. */
  function Wrap64(x: int): int {
    (x + TWO_TO_THE_63) % TWO_TO_THE_64 - TWO_TO_THE_63
  }

  function Min(a: int, b: int): int {
    if a <= b then a else b
  }

  function LinearRequeueDelay(attempts: uint32, defaultDelay: int, maxDelay: int): int {
    var n := if attempts == 0 then 1 else attempts as int;
    if defaultDelay <= 0 then 0
    else if maxDelay > 0 && n > maxDelay / defaultDelay then maxDelay
    else
      var delay := Wrap64(defaultDelay * n);
      if maxDelay > 0 && delay > maxDelay then maxDelay else delay
  }

  datatype RequeueConfig = RequeueConfig(defaultRequeueDelay: int, maxRequeueDelay: int, maxAttempts: uint32)

  /** validateRequeueConfig returns no error. */
  predicate ValidConfig(cfg: RequeueConfig) {
    cfg.defaultRequeueDelay > 0 && cfg.maxRequeueDelay >= cfg.defaultRequeueDelay && cfg.maxAttempts <= 32767
  }

  /** The attempt number the policy multiplies by: 0 counts as 1. */
  function Factor(attempts: uint32): (n: int)
    ensures n >= 1
  {
    if attempts == 0 then 1 else attempts as int
  }

  /** Once the cap has been checked by division, the product needs no second cap and fits in 64 bits. */
  lemma ProductBelowCap(n: int, defaultDelay: int, maxDelay: int)
    requires defaultDelay > 0 && maxDelay > 0 && n >= 1
    ensures n <= maxDelay / defaultDelay <==> defaultDelay * n <= maxDelay
  {
    var q := maxDelay / defaultDelay;
    assert maxDelay == q * defaultDelay + maxDelay % defaultDelay;
    if n <= q {
      assert n * defaultDelay <= q * defaultDelay;
    } else {
      assert n * defaultDelay >= (q + 1) * defaultDelay == q * defaultDelay + defaultDelay;
    }
  }

  /** For every attempt count the code computes the documented policy over the integers; nothing wraps. */
  lemma DelayIsCappedProduct(attempts: uint32, defaultDelay: int, maxDelay: int)
    requires IsInt64(defaultDelay) && IsInt64(maxDelay) && defaultDelay > 0 && maxDelay > 0
    ensures LinearRequeueDelay(attempts, defaultDelay, maxDelay) == Min(defaultDelay * Factor(attempts), maxDelay)
    ensures Factor(attempts) <= maxDelay / defaultDelay ==>
              defaultDelay * Factor(attempts) <= maxDelay && IsInt64(defaultDelay * Factor(attempts))
  {
    var n := Factor(attempts);
    ProductBelowCap(n, defaultDelay, maxDelay);
    if n <= maxDelay / defaultDelay {
      assert 0 < defaultDelay * n <= maxDelay;
    }
  }

  /** Without a positive cap the product is exact if and only if it fits; otherwise it wraps. */
  lemma UncappedDelay(attempts: uint32, defaultDelay: int, maxDelay: int)
    requires IsInt64(defaultDelay) && defaultDelay > 0 && maxDelay <= 0
    ensures LinearRequeueDelay(attempts, defaultDelay, maxDelay) == defaultDelay * Factor(attempts)
            <==> defaultDelay * Factor(attempts) < TWO_TO_THE_63
  {
    var p := defaultDelay * Factor(attempts);
    assert p > 0;
    if p >= TWO_TO_THE_63 {
      assert Wrap64(p) < TWO_TO_THE_63;
    }
  }

  /** Under a validated configuration delays grow with the attempt count and stay within [default, max]. */
  lemma DelayIsMonotone(a: uint32, b: uint32, cfg: RequeueConfig)
    requires ValidConfig(cfg) && IsInt64(cfg.defaultRequeueDelay) && IsInt64(cfg.maxRequeueDelay)
    requires a <= b
    ensures cfg.defaultRequeueDelay
            <= LinearRequeueDelay(a, cfg.defaultRequeueDelay, cfg.maxRequeueDelay)
            <= LinearRequeueDelay(b, cfg.defaultRequeueDelay, cfg.maxRequeueDelay)
            <= cfg.maxRequeueDelay
  {
    var d, m := cfg.defaultRequeueDelay, cfg.maxRequeueDelay;
    DelayIsCappedProduct(a, d, m);
    DelayIsCappedProduct(b, d, m);
    assert d * 1 <= d * Factor(a) <= d * Factor(b) by {
      MulMonotone(d, 1, Factor(a));
      MulMonotone(d, Factor(a), Factor(b));
    }
  }

  lemma MulMonotone(d: int, x: int, y: int)
    requires d > 0 && x <= y
    ensures d * x <= d * y
  {
  }

  /** The metadata handed to the handler. */
  datatype Delivery = Delivery(attempts: uint32, maxAttempts: uint32, requeueDelay: int,
                               defaultRequeueDelay: int, maxRequeueDelay: int)

  function RequeueDelayFor(d: Delivery, attempt: uint32): int {
    if d.defaultRequeueDelay > 0
    then LinearRequeueDelay(attempt, d.defaultRequeueDelay, d.maxRequeueDelay)
    else d.requeueDelay
  }

  /** An error value: a leaf, a requeue directive, or a wrapper around another error. */
  datatype Error = Plain(message: string) | RequeueError(cause: Error, delay: int, backoff: bool) | Wrapped(inner: Error)

  function RequestRequeue(cause: Error, delay: int, backoff: bool): Error {
    RequeueError(cause, if delay < 0 then 0 else delay, backoff)
  }

  /** (delay, backoff, explicitly requested): errors.As finds the outermost directive in the chain. */
  function RequestedRequeue(err: Error, fallback: int): (int, bool, bool) {
    match err
    case RequeueError(_, delay, backoff) => (delay, backoff, true)
    case Wrapped(inner) => RequestedRequeue(inner, fallback)
    case Plain(_) => (fallback, true, false)
  }

  /** Wraps an error `depth` times, as `fmt.Errorf("...: %w", err)` does. */
  function WrapTimes(err: Error, depth: nat): Error {
    if depth == 0 then err else Wrapped(WrapTimes(err, depth - 1))
  }

  /** The errors errors.As looks at: the error itself, then what it unwraps to. */
  function Chain(err: Error): seq<Error> {
    match err
    case Plain(_) => [err]
    case RequeueError(cause, _, _) => [err] + Chain(cause)
    case Wrapped(inner) => [err] + Chain(inner)
  }

  ghost predicate FirstDirective(err: Error, i: nat) {
    && i < |Chain(err)| && Chain(err)[i].RequeueError?
    && forall j :: 0 <= j < i ==> !Chain(err)[j].RequeueError?
  }

  /** The outermost directive of the chain decides; an error without one asks for the fallback with backoff. */
  lemma {:induction false} OutermostDirectiveDecides(err: Error, fallback: int)
    ensures forall i: nat :: FirstDirective(err, i) ==>
                               RequestedRequeue(err, fallback) == (Chain(err)[i].delay, Chain(err)[i].backoff, true)
    ensures (forall e :: e in Chain(err) ==> !e.RequeueError?) ==>
              RequestedRequeue(err, fallback) == (fallback, true, false)
    ensures RequestedRequeue(err, fallback).2 <==> exists e :: e in Chain(err) && e.RequeueError?
  {
    match err {
      case Plain(_) =>
      case RequeueError(_, _, _) =>
        assert Chain(err)[0] == err;
        assert forall i: nat :: FirstDirective(err, i) ==> i == 0;
      case Wrapped(inner) =>
        OutermostDirectiveDecides(inner, fallback);
        assert Chain(err)[0] == err && Chain(err)[1..] == Chain(inner);
        forall i: nat | FirstDirective(err, i)
          ensures RequestedRequeue(err, fallback) == (Chain(err)[i].delay, Chain(err)[i].backoff, true)
        {
          assert Chain(err)[i] == Chain(inner)[i - 1];
          assert FirstDirective(inner, i - 1) by {
            forall j | 0 <= j < i - 1 ensures !Chain(inner)[j].RequeueError? {
              assert Chain(inner)[j] == Chain(err)[j + 1];
            }
          }
        }
    }
  }

  /** A directive survives any wrapping on its way to the consumer, with negative delays read as zero. */
  lemma {:induction false} RequeueRoundTrip(cause: Error, delay: int, backoff: bool, depth: nat, fallback: int)
    ensures RequestedRequeue(WrapTimes(RequestRequeue(cause, delay, backoff), depth), fallback)
            == (if delay < 0 then 0 else delay, backoff, true)
  {
    if depth > 0 {
      RequeueRoundTrip(cause, delay, backoff, depth - 1, fallback);
    }
  }

  /** The uint32 increment that keeps the old value when it would wrap to zero. */
  function NextAttempts(attempts: int): (next: int)
    ensures 1 <= attempts < TWO_TO_THE_32 ==> next == Min(attempts + 1, TWO_TO_THE_32 - 1)
    ensures 0 <= attempts < TWO_TO_THE_32 ==> 0 <= next < TWO_TO_THE_32
  {
    var next := (attempts + 1) % TWO_TO_THE_32;
    if next == 0 then attempts else next
  }
}
