/** Error values shared by every part of the model, and the optional/result
    wrappers the operations return. Go's `error` interface becomes the
    datatype `Error`; `err.Error()` becomes `Text`. */
module Errors {

  datatype Option<+T> = None | Some(value: T)

  datatype Result<+T> = Ok(value: T) | Err(error: Error)

  datatype Error =
    /** `cfn.ErrStackNotExist`, the normalised "stack does not exist" sentinel */
    | StackNotExist
    /** an API error reported by the remote service, with its code and its text */
    | ApiError(code: string, text: string)
    /** any error that is not an API error (transport, credentials, ...) */
    | Transport(text: string)
    /** `errors.New(text)` */
    | Message(text: string)
    /** an error wrapped with a context phrase (`errors.Wrap` or the UI's `Errorf`) */
    | Wrapped(context: string, cause: Error)
    /** the runtime panic of indexing past the end of a slice, as a value */
    | IndexOutOfRange

  /** The text of an error, as `err.Error()` gives it. */
  function Text(e: Error): string
  {
    match e
    case StackNotExist => "stack does not exist"
    case ApiError(_, text) => text
    case Transport(text) => text
    case Message(text) => text
    case Wrapped(context, cause) => context + ": " + Text(cause)
    case IndexOutOfRange => "runtime error: index out of range [1] with length 1"
  }
}
