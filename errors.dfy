/** Failure outcomes of the schema compiler, one per exception the compiler
    can raise, and the Option/Result wrappers used throughout. */
module Errors {

  datatype Error =
    | NullReference               // a token-less node's type or a leaf's absent child list was dereferenced
    | IndexOutOfBounds            // remove(0) on an exhausted token list
    | UnknownTypeMarker           // a type expression starts with none of the four markers
    | TypeNotFound(name: string)  // the scoped lookup found no type of that name
    | LiteralParseError(text: string)
    | TypeLookupMiss(qname: string)  // no registered type under that qualified name
    | WrongTypeKind(qname: string)   // the registered type is not of the expected kind
    | DuplicateType(qname: string)   // a type is already registered under that name

  datatype Option<+T> = None | Some(value: T)

  datatype Result<+T> = Ok(value: T) | Err(error: Error)
}
