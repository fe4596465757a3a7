/**
 * Option and Result wrappers shared by the whole model, and the exception
 * kinds the pipeline raises. A Python exception becomes `Fail(kind)`.
 */
module Wrappers {

  datatype Option<T> = None | Some(value: T)
  {
    predicate IsSome() { this.Some? }
  }

  /** The exception classes the modelled code raises or lets escape. */
  datatype Error =
    | ValueError
    | TypeError
    | AttributeError
    | KeyError
    | IndexError
    | NotImplementedError
    | FileNotFoundError
    | PipelineError
    | RuntimeError
    | UnboundLocalError

  datatype Result<T> = Ok(value: T) | Fail(error: Error)
  {
    predicate IsOk() { this.Ok? }
  }
}
