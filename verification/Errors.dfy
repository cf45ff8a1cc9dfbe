/** Why an object fails, as far as a policy or a retry depends on it. */
module Errors {
  datatype CoreError =
    | NotFound
    | Backend
    | Config
    | Decode
    | Gzip
    | Json
    | Internal
    | ObjectTooLarge
    | SelfTrigger
    | UnrecognizedObject
  {
    /** The source's own bytes would not parse: the only class that may be copied verbatim. */
    predicate IsUnparsableSource() {
      Gzip? || Json?
    }
  }
}
