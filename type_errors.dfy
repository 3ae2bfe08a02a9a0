/** `TypeParseError`, shared by the simple, object and top-level type readers. */
module TypeErrors {
  import P = RestPrimitiveType

  datatype TypeParseError =
    | NotTypeNode
    | MissingName
    | MissingAnnotation
    | PrimitiveTypeParseError(cause: P.ParsePrimitiveTypeError)
    | MissingBase
    | MissingItemTypeValue
}
