/** Option and Result values, used for optional XML text and for the
    exceptions that abort a run. */
module Wrappers {

  datatype Option<+T> = None | Some(value: T)

  datatype Result<+T, +E> = Ok(value: T) | Err(error: E) {
    predicate IsFailure() { Err? }

    function PropagateFailure<U>(): Result<U, E>
      requires Err?
    {
      Err(error)
    }

    function Extract(): T
      requires Ok?
    {
      value
    }
  }
}

/** The Python exceptions that can end a run. None of them is caught:
    each one aborts the job before anything is uploaded. */
module Errors {

  datatype Error =
    | TransportError   // the GET itself fails (DNS, TLS, timeout, ...)
    | ConnectionError  // a response whose status is not 200
    | ParseError       // a response body that is not well-formed XML
    | TypeError        // iterating a missing <body>, or int(None) on an empty totalCount
    | ValueError       // int() of text that is not a decimal integer
    | AttributeError   // None.replace(",", "") on a present but empty amount element
    | OverflowError    // an amount that does not fit a 64-bit signed integer
}
