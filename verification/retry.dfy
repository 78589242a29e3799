/**
 * The bounded retry loops around the payment processor's API
 * (`getMerchantOrderWithRetry`, `tryGetPaymentWithRetry`; the current and the
 * earlier server carry identical copies). Each call to the API is a foreign
 * call: attempt `i` is given by a function from attempt number to outcome.
 * The three-second pauses between attempts are not modelled.
 */
module Retry {
  /** What one API call did: returned a value, or threw an error carrying an
      HTTP status. */
  datatype Attempt<T> = Returned(value: T) | Raised(status: int)

  /** What the helper did: returned a value, rethrew an error, or fell out of
      its loop and returned `undefined`. */
  datatype RetryResult<T> = Value(value: T) | Thrown(status: int) | Undefined

  /** `getMerchantOrderWithRetry`: retry while the merchant order has no
      payments or the call throws; the last attempt's outcome is passed on as
      it is. `hasPayments` is the `payments.length > 0` test. */
  method GetMerchantOrderWithRetry<T>(attempt: nat -> Attempt<T>, hasPayments: T -> bool, retries: int)
    returns (r: RetryResult<T>, calls: nat)
    ensures retries <= 0 ==> r == Undefined && calls == 0
    ensures retries > 0 ==> 1 <= calls <= retries && !r.Undefined?
    ensures forall i :: 0 <= i < calls - 1 ==>
      attempt(i).Raised? || !hasPayments(attempt(i).value)
    ensures r.Value? ==> attempt(calls - 1) == Returned(r.value)
    ensures r.Value? && calls < retries ==> hasPayments(r.value)
    ensures r.Thrown? ==> calls == retries && attempt(calls - 1) == Raised(r.status)
  {
    calls := 0;
    var i := 0;
    while i < retries
      invariant 0 <= i && calls == i
      invariant retries > 0 ==> i <= retries - 1
      invariant retries <= 0 ==> i == 0
      invariant forall j :: 0 <= j < i ==> attempt(j).Raised? || !hasPayments(attempt(j).value)
      decreases retries - i
    {
      var outcome := attempt(i);
      calls := calls + 1;
      match outcome {
        case Returned(orderData) =>
          if hasPayments(orderData) {
            return Value(orderData), calls;
          }
          if i >= retries - 1 {
            return Value(orderData), calls;
          }
        case Raised(status) =>
          if i >= retries - 1 {
            return Thrown(status), calls;
          }
      }
      i := i + 1;
    }
    r := Undefined;
  }

  /** `tryGetPaymentWithRetry`: retry only after a 404 with attempts left; any
      other error, or a 404 on the last attempt, is rethrown. */
  method TryGetPaymentWithRetry<T>(attempt: nat -> Attempt<T>, retries: int)
    returns (r: RetryResult<T>, calls: nat)
    ensures retries <= 0 ==> r == Undefined && calls == 0
    ensures retries > 0 ==> 1 <= calls <= retries && !r.Undefined?
    ensures forall i :: 0 <= i < calls - 1 ==> attempt(i) == Raised(404)
    ensures r.Value? ==> attempt(calls - 1) == Returned(r.value)
    ensures r.Thrown? ==> attempt(calls - 1) == Raised(r.status) && (r.status != 404 || calls == retries)
  {
    calls := 0;
    var i := 0;
    while i < retries
      invariant 0 <= i && calls == i
      invariant retries > 0 ==> i <= retries - 1
      invariant retries <= 0 ==> i == 0
      invariant forall j :: 0 <= j < i ==> attempt(j) == Raised(404)
      decreases retries - i
    {
      var outcome := attempt(i);
      calls := calls + 1;
      match outcome {
        case Returned(result) =>
          return Value(result), calls;
        case Raised(status) =>
          if !(status == 404 && i < retries - 1) {
            return Thrown(status), calls;
          }
      }
      i := i + 1;
    }
    r := Undefined;
  }
}
