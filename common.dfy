/** Java's nullable references and exceptions, modelled explicitly. */
module Common {

  /** `None` stands for Java's `null`. */
  datatype Option<T> = None | Some(value: T) {

    /** The value, or `default` when this is `null`. */
    function GetOr(default: T): T {
      match this
      case Some(v) => v
      case None => default
    }
  }

  /** The exceptions the build step can end with. */
  datatype Failure =
    | IllegalState        // IllegalStateException: no workspace
    | Interrupted         // InterruptedException: DIRECTED_DAST_HOME blank
    | Io                  // IOException: copy, read, walk or launch failed
    | JsonSyntax          // the settings file does not parse
    | NullPointer         // a null settings document or a null rule list
    | Abort               // AbortException: the scanner exited non-zero
    | Runtime(cause: Failure)  // RuntimeException wrapping a failure inside forEach

  datatype Result<T> = Ok(value: T) | Err(failure: Failure)
}
