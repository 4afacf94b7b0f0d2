/** Results and errors shared by every part of the rotation model. */
module Outcomes {

  datatype Option<+T> = None | Some(value: T)

  /** Every way one invocation of the rotation handler can fail. Each case
      names the exception the handler lets escape to its caller. */
  datatype RotationError =
    | ResourceNotFound      // the store has no such secret, or no value for the version and stage asked for
    | RotationNotEnabled    // the secret's metadata says rotation is switched off
    | NoStageForToken       // the request token is not a version of the secret
    | NotPending            // the token's version is neither current nor pending
    | InvalidStep(step: string)
    | EngineNotMariaDB      // the payload's engine is missing or is not "mariadb"
    | MissingKey(key: string)
    | UsernameTooLong       // the clone name would exceed the 80-character limit
    | InvalidPort           // the payload's port does not parse as an integer
    | UserMismatch          // the pending user is not the current user's alternate
    | HostMismatch          // the pending host differs from the current host
    | CurrentLoginFailed    // the current credential no longer logs in
    | UntrustedHost         // the current host is neither the master host nor a replica of it
    | MasterLoginFailed     // the master credential does not log in
    | PendingLoginFailed    // testSecret could not log in with the pending credential
    | StatementFailed       // the database refused a statement

  datatype Result<+T> = Ok(value: T) | Err(error: RotationError)

  /** The outcome of a step that returns nothing on success. */
  datatype Outcome = Done | Failed(error: RotationError)
}
