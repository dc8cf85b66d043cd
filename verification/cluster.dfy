/** Shared vocabulary of the model: verdicts, the outcome of a call into the
    Kubernetes API or the filesystem (observed, never performed), and Go's
    32-bit integers where the source converts to them. */
module Cluster {

  datatype Option<+T> = None | Some(value: T)

  /** The closed set of verdicts a probe or a preflight check can reach.
      The source spells them as the strings "PASS", "FAIL", "WARN", "SKIP". */
  datatype Status = Pass | Fail | Warn | Skip

  /** Outcome of a call that returns only an error (Delete, MkdirAll, ...).
      `error` is the text `%v` would print for the Go error. */
  datatype Outcome = Done | Failed(error: string)

  /** Outcome of a call that returns a value or an error (Get, List, ReadDir, ...). */
  datatype Fetch<+T> = Fetched(value: T) | FetchFailed(error: string)

  /** The reason the API server attaches to a failed request, next to the
      error's text. Only the two reasons the source distinguishes are named. */
  datatype Reason = AlreadyExists | NotFound | OtherReason

  datatype ApiError = ApiError(reason: Reason, text: string)

  /** Go's int32. */
  const Int32Modulus: int := 0x1_0000_0000
  newtype int32 = x: int | -0x8000_0000 <= x < 0x8000_0000

  /** Go's conversion `int32(x)` of a wider integer: keeps the low 32 bits,
      read as two's complement. */
  function Int32Of(x: int): (r: int32)
    ensures (r as int - x) % Int32Modulus == 0
    ensures -0x8000_0000 <= x < 0x8000_0000 ==> r as int == x
  {
    (((x + 0x8000_0000) % Int32Modulus) - 0x8000_0000) as int32
  }

  /** What a Get of a Deployment reports: the desired and the ready replicas. */
  datatype Deployment = Deployment(specReplicas: int32, readyReplicas: int32)
}
