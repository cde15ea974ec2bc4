/** The exceptions the adapter raises or lets through. */
module Errors {
  datatype Error =
    /** `InvalidOperationException`: a non-success status, or a client configuration without endpoint or key. */
    | InvalidOperation(message: string)
    /** `ArgumentException` for an empty argument, named by its parameter. */
    | EmptyArgument(parameter: string)
    /** `ArgumentException` from `Dictionary.Add` on a key already present. */
    | DuplicateKey(key: string)
    /** Any fault the inference SDK itself raises (network, authentication, ...). */
    | SdkFault(message: string)
}
