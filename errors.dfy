/** Option and Result wrappers and the error values the core produces. */
module Errors {
  import Text

  datatype Option<+T> = None | Some(value: T)

  datatype Result<+T> = Ok(value: T) | Err(error: Error)

  datatype Error =
    | InvalidRelationType            // a cascade config whose RelType is neither REL_MANY nor REL_ONE
    | DotPathConflict                // MapFromCascadeProperties reached a non-map intermediate value
    | MissingIdentifier              // CascadeDelete found no field named Id to default ReferenceQuery from
    | NestingTooDeep                 // a Nest cascade went deeper than the model's depth bound
    | StoreError(request: nat)       // the store rejected the request at this position of its log
    | ValidationError(errors: seq<Error>)
    | HookError(message: string)     // an error returned by a user hook (BeforeSave, AfterFind, ...)
    | NotNewWithoutId                // Save of a document that is not new but has the zero ID
    | DocumentNotFound

  /** The text that the error's Error() method returns. */
  function Message(e: Error): string
  {
    match e
    case InvalidRelationType => "invalid relation type"
    case DotPathConflict => "Cannot access non-map property via dot notation"
    case MissingIdentifier => "no such field: Id in obj"
    case NestingTooDeep => "nested cascade too deep"
    case StoreError(_) => "store operation failed"
    case ValidationError(errs) =>
      "Validation failed. (" + Text.Join(seq(|errs|, i requires 0 <= i < |errs| => Message(errs[i])), ", ") + ")"
    case HookError(m) => m
    case NotNewWithoutId => "New tracker says this document isn't new but there is no valid Id field"
    case DocumentNotFound => "Document not found"
  }
}
