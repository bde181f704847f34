/** Shared value types: optional values, results and the error values the
    services return. */
module Common {

  datatype Option<+T> = None | Some(value: T) {
    function GetOr(default: T): T {
      match this
      case Some(v) => v
      case None => default
    }
  }

  /** The errors of the core. `Wrapped(op, cause)` is `fmt.Errorf("%s: %w", op, cause)`. */
  datatype Error =
    | LoginAlreadyExists             // services/auth/domain.go
    | UserNotFound
    | InvalidPassword
    | NoteNotFound                   // services/notes/domain.go
    | StoreError(storeOp: string)    // any fault of the durable store, named by the store operation
    | HashError                      // bcrypt.GenerateFromPassword failed
    | Wrapped(op: string, cause: Error)

  datatype Result<+T> = Ok(value: T) | Err(error: Error)
}
