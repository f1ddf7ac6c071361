/** The Python values and exceptions that the sample application passes between
    its layers: request bodies, ORM column values, configuration entries, and the
    exceptions that the API layer turns into HTTP statuses. */
module Runtime {

  datatype Option<+T> = None | Some(value: T)

  /** A dynamically typed Python value as the core sees it. `Null` is Python's
      `None`; `Time` is a `datetime`, counted in whole seconds. */
  datatype Value = Null | Str(s: string) | Int(i: int) | Bool(b: bool) | Time(seconds: int)

  /** Python truthiness: `None`, `''`, `0` and `False` are falsy; a `datetime` is always truthy. */
  predicate Truthy(v: Value)
  {
    match v
    case Null => false
    case Str(s) => s != ""
    case Int(i) => i != 0
    case Bool(b) => b
    case Time(_) => true
  }

  /** The exceptions raised by the core or by the libraries it calls. */
  datatype Error =
    | NoResultFound       // sqlalchemy.orm.exc.NoResultFound
    | Unauthorized        // werkzeug.exceptions.Unauthorized
    | NotImplemented      // Exception("Not Implemented") of the non-persistent delete
    | AttributeError      // an attribute read or written on None
    | ParserError         // dateutil could not parse a date column
    | IntegrityError      // a NOT NULL constraint failed when the session committed
    | DecodeError         // the JWT library refused a token (bad format, signature, audience or time)
    | KeyError(key: string)
    | SystemExit          // raise SystemExit() while preparing the local database file

  /** The outcome of a call that returns a value or raises. */
  datatype Result<+T> = Ok(value: T) | Raised(error: Error)
}
