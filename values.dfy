/** The metadata values an HDX object holds, and the errors its helpers raise. */
module Values {

  datatype Option<T> = None | Some(value: T)

  /** A JSON-like metadata value: a field of an HDX object's dictionary. */
  datatype Value =
    | Str(s: string)
    | Int(i: int)
    | Bool(b: bool)
    | Null
    | Dict(fields: map<string, Value>)
    | Records(items: seq<map<string, Value>>)

  /** The dictionary an HDX object wraps. */
  type Data = map<string, Value>

  /** Python truthiness: `not v` holds of exactly these values. */
  predicate Falsy(v: Value)
  {
    match v
    case Str(s) => s == ""
    case Int(i) => i == 0
    case Bool(b) => !b
    case Null => true
    case Dict(m) => |m| == 0
    case Records(rs) => |rs| == 0
  }

  /** Values Python can put in a set; dicts and lists cannot be hashed. */
  predicate Hashable(v: Value)
  {
    !v.Dict? && !v.Records?
  }

  /** The three remote actions that write an object. */
  datatype Write = CreateWrite | UpdateWrite | DeleteWrite

  /** What the helpers raise: HDXError with its reason, or Python's KeyError and TypeError. */
  datatype Error =
    | EmptyIdentifier                  // HDXError "Empty ... identifier!"
    | ReadFailed                       // HDXError "HTTP Get failed ..."
    | NoData                           // HDXError "No data in ...!"
    | MissingIdField(field: string)    // HDXError "No ... field (mandatory) in ...!"
    | NoExistingObject                 // HDXError "No existing ... to update!"
    | MissingRequiredField(field: string)  // HDXError "Field ... is missing in ...!"
    | WriteFailed(action: Write)       // HDXError "HTTP Post failed when trying to ..."
    | KeyMissing(key: string)          // KeyError on `record[id_field]`
    | NotRecords                       // TypeError: iterating or indexing a value that is not a list
    | Unhashable                       // TypeError: a dict or list id added to, or looked up in, a set

  /** Whether a helper returned normally or raised. */
  datatype Status = Done | Raised(error: Error)
}
