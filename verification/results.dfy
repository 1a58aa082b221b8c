/** Failure-carrying values shared by the date resolver and the report pipeline. */
module Results {

  datatype Option<+T> = None | Some(value: T)

  /** Why the date resolution or the puzzle request stops a run with exit status 1. */
  datatype Failure =
    | InvalidDate         // a date-shaped argument that strptime rejects
    | RequestRaised       // requests.get raised (timeout, connection error)
    | Upstream(status: nat) // the puzzle service answered with a status other than 200

  datatype Result<+T> = Ok(value: T) | Err(failure: Failure)
}
