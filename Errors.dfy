/** The exceptions the core raises, as values. */
module Errors {

  datatype Error =
    | InvalidMbrMagic   // IOError('Invalid MBR magic')
    | InvalidGptMagic   // IOError('invalid GPT magic')
    | NoSuchPartition   // IndexError on the partition list
    | Overflow          // OverflowError from int.to_bytes
    | NotAnInteger      // AttributeError: a float has no to_bytes

  datatype Result<T> = Ok(value: T) | Err(error: Error)
}
