/** Option and Result, and the exceptions of the modelled Java code as values. */
module Wrappers {

  datatype Option<+T> = None | Some(value: T)

  /** Each exception the modelled code can raise, by cause. The Java exception
      class is named in the comment. */
  datatype Failure =
    | InvalidReferenceHeader(header: string)   // IllegalArgumentException from Header.getReference*
    | InvalidExternalAttribute(header: string) // IllegalArgumentException from parseExternalAttribute
    | StringIndexOutOfBounds(text: string)     // substring beyond the end of a string
    | IndexOutOfBounds(index: int)             // List.get or array access outside the bounds
    | NumberFormat(text: string)               // new BigDecimal(text) on a non-number
    | RoundingNecessary(text: string)          // BigDecimal.setScale(0) on a fractional value
    | MappingSheetColumns(count: nat)          // RuntimeException: mapping sheet needs two columns
    | DuplicateValues(keys: seq<string>)       // RuntimeException: a lookup value resolved twice
    | ExecutorFailed(message: string)          // RuntimeException wrapping the executor's exception
    | NoResponse                               // RuntimeException: no response from the endpoints
    | UnparsableResponse(message: string)      // RuntimeException wrapping the JSON parser's IOException
    | MalformedResponse                        // NoSuchElementException while walking the response
    | IdNotFound(key: string)                  // IllegalStateException: reference value without id
    | MissingHeaders(sheet: string)            // IllegalArgumentException: composition sheet, no headers
    | MissingParentReference(sheet: string)    // IllegalArgumentException: composition sheet, no reference
    | NullValue                                // NullPointerException

  datatype Result<+T> = Ok(value: T) | Err(failure: Failure) {
    predicate IsFailure() { Err? }

    function PropagateFailure<U>(): Result<U>
      requires Err?
    {
      Err(failure)
    }

    function Extract(): T
      requires Ok?
    {
      value
    }
  }
}
