/** Option and Result, for the places where the source returns null or throws. */
module Wrappers {

  datatype Option<+T> = None | Some(value: T)

  /** The exceptions and error returns of the modelled code. */
  datatype Error =
    | EndOfStream                       // a read ran past the end of the image
    | NegativeSeek                      // a seek before the beginning of the stream
    | AllocationConflict(start: int, length: int)
    | OutOfSpace(length: int)
    | UnresolvedName(category: nat, name: string)
    | NullReference                     // a null value was dereferenced
    | MissingSize                       // a nullable size was cast to int while null
    | UnknownUndoAction(id: nat)
    | SubstringOutOfRange               // Substring past the end of the string
    | EmptyStack                        // Pop on an empty Stack
    | IndexOutOfRange                   // an array index outside its bounds

  datatype Result<+T> = Ok(value: T) | Err(error: Error)
}
