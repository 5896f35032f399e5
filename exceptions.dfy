/** The exceptions the pipeline raises, as values. */
module Exceptions {

  datatype Error =
    /** java.lang.IllegalArgumentException with its message */
    | IllegalArgument(message: string)
    /** java.lang.NullPointerException: a null reference was dereferenced */
    | NullPointer
    /** the decoder could not read the next order of a file */
    | MalformedRecord
    /** the directory walk failed (an IOException wrapped in a RuntimeException) */
    | WalkFailed
}
