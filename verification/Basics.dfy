/** Vocabulary shared by the other modules. */
module Basics {

  datatype Option<+T> = None | Some(value: T) {
    /** The value, or `default` when there is none. */
    function GetOr(default: T): T {
      if Some? then value else default
    }
  }

  // The values that the connection properties share.
  const UDP := "udp"
  const TCP := "tcp"
  const DEFAULT_PORT := "443"
}
