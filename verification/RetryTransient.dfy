/** Repeating a read through failures that may pass. */
module RetryTransient {
  import opened Wrappers

  const AWAIT_RUN_READ_ATTEMPTS := 6
  const AWAIT_RUN_RETRY_BASE_MS := 1000

  /** How one attempt ends: an answer, a network failure or timeout, or any other error. */
  datatype Attempt = Answered | Transient | Refused

  datatype RequestError = OutOfAttempts | RequestRefused

  function Pow2(n: nat): nat {
    if n == 0 then 1 else 2 * Pow2(n - 1)
  }

  /** What the attempts of one request come to. */
  function Retried(attempts: nat -> Attempt): Result<(), RequestError> {
    var k := FirstConclusive(attempts, 0);
    if k == AWAIT_RUN_READ_ATTEMPTS then Err(OutOfAttempts)
    else if attempts(k).Answered? then Ok(()) else Err(RequestRefused)
  }

  /** The first of the six attempts that is not a transient failure. */
  function FirstConclusive(attempts: nat -> Attempt, from: nat): (k: nat)
    requires from <= AWAIT_RUN_READ_ATTEMPTS
    ensures from <= k <= AWAIT_RUN_READ_ATTEMPTS
    ensures forall i :: from <= i < k ==> attempts(i).Transient?
    ensures k < AWAIT_RUN_READ_ATTEMPTS ==> !attempts(k).Transient?
    decreases AWAIT_RUN_READ_ATTEMPTS - from
  {
    if from == AWAIT_RUN_READ_ATTEMPTS || !attempts(from).Transient? then from
    else FirstConclusive(attempts, from + 1)
  }

  /**
   At most six requests are issued, each but the last a transient failure; the wait doubles from one
   base unit, so it has slept `2^(issued - 1) - 1` units.
   */
  method RetryRequest(attempts: nat -> Attempt) returns (r: Result<(), RequestError>, issued: nat, sleptMs: nat)
    ensures r == Retried(attempts)
    ensures 1 <= issued <= 6
    ensures forall i :: 0 <= i < issued - 1 ==> attempts(i).Transient?
    ensures issued < 6 ==> !attempts(issued - 1).Transient?
    ensures r.Ok? <==> attempts(issued - 1).Answered?
    ensures r == Err(OutOfAttempts) <==> issued == 6 && attempts(5).Transient?
    ensures sleptMs == 1000 * (Pow2(issued - 1) - 1) <= 31000
  {
    var attempt := 1;
    sleptMs := 0;
    while true
      invariant 1 <= attempt <= AWAIT_RUN_READ_ATTEMPTS
      invariant forall i :: 0 <= i < attempt - 1 ==> attempts(i).Transient?
      invariant FirstConclusive(attempts, 0) == FirstConclusive(attempts, attempt - 1)
      invariant sleptMs == AWAIT_RUN_RETRY_BASE_MS * (Pow2(attempt - 1) - 1)
      decreases AWAIT_RUN_READ_ATTEMPTS - attempt
    {
      assert Pow2(5) == 32 && Pow2(4) == 16 && Pow2(3) == 8 && Pow2(2) == 4 && Pow2(1) == 2 by {
        assert Pow2(0) == 1 && Pow2(1) == 2 && Pow2(2) == 4 && Pow2(3) == 8;
      }
      if attempts(attempt - 1).Answered? {
        return Ok(()), attempt, sleptMs;
      }
      if attempts(attempt - 1).Refused? {
        return Err(RequestRefused), attempt, sleptMs;
      }
      if attempt >= AWAIT_RUN_READ_ATTEMPTS {
        return Err(OutOfAttempts), attempt, sleptMs;
      }
      sleptMs := sleptMs + AWAIT_RUN_RETRY_BASE_MS * Pow2(attempt - 1);
      attempt := attempt + 1;
    }
  }
}
