/** gRPC outcomes of one upstream call, and how the proxy classifies them. */
module Status {

  type Byte = x: int | 0 <= x < 256
  type Bytes = seq<Byte>

  const UNKNOWN := 2
  const DEADLINE_EXCEEDED := 4
  const INTERNAL := 13
  const UNAVAILABLE := 14
  const DATA_LOSS := 15

  datatype UpstreamError = UpstreamError(code: nat, message: Bytes) {
    /** Codes that are safe to retry. */
    predicate IsRetryable() {
      code == UNAVAILABLE || code == DEADLINE_EXCEEDED
    }

    /** The upstream itself is unhealthy, as opposed to an application-level answer. */
    predicate IsUpstreamFault() {
      code in {UNKNOWN, DEADLINE_EXCEEDED, INTERNAL, UNAVAILABLE, DATA_LOSS}
    }
  }

  /** Every code that is safe to retry counts as a fault of the upstream; these are all of either kind. */
  lemma CodesClassified(error: UpstreamError)
    ensures error.IsRetryable() <==> error.code == 4 || error.code == 14
    ensures error.IsUpstreamFault() <==> error.IsRetryable() || error.code == 2 || error.code == 13 || error.code == 15
  {
  }

  /** A call's result: a status-0 body, or an error. */
  datatype Outcome = Ok(body: Bytes) | Err(error: UpstreamError) {
    predicate IsRetryable() {
      Err? && error.IsRetryable()
    }

    predicate IsFault() {
      Err? && error.IsUpstreamFault()
    }
  }
}
