/** Values stored in the properties of the wrapped entities, and the error
    kinds raised while a wrapper is being constructed. */
module Values {

  datatype Option<+T> = None | Some(value: T)

  datatype Result<+R> = Success(value: R) | Failure(error: Error)

  /** The exceptions thrown by the wrapper constructors, and one refusal of
      the model's own: `SharedEntity` names a list that holds one entity more
      than once, which would give two wrappers one model (the C# accepts it). */
  datatype Error =
    | ArgumentNullException(paramName: string)
    | ArgumentException(message: string)
    | SharedEntity(paramName: string)

  /** A `DateTime` is compared only for equality here, so it is an opaque token. */
  datatype Date = Date(ticks: int)

  /** A boxed property value; `==` on it stands for `object.Equals`.
      C# strings and `DateTime?` may be null, hence the options. */
  datatype Value =
    | IntValue(i: int)
    | BoolValue(b: bool)
    | StringValue(s: Option<string>)
    | DateValue(d: Option<Date>)

  /** The static type of a property. */
  datatype Kind = IntKind | BoolKind | StringKind | DateKind

  function KindOf(v: Value): Kind {
    match v
    case IntValue(_) => IntKind
    case BoolValue(_) => BoolKind
    case StringValue(_) => StringKind
    case DateValue(_) => DateKind
  }

  /** Property name to value, the reflective view of an entity. */
  type Fields = map<string, Value>

  /** Property name to static type, the compile-time shape of an entity class. */
  type Schema = map<string, Kind>

  /** `fields` has exactly the properties of `schema`, each holding a value of its type. */
  ghost predicate Conforms(fields: Fields, schema: Schema) {
    fields.Keys == schema.Keys &&
    forall f :: f in fields ==> KindOf(fields[f]) == schema[f]
  }

  /** Every value recorded in `ledger` is of the type of its property. */
  ghost predicate LedgerConforms(ledger: Fields, schema: Schema) {
    forall f :: f in ledger ==> f in schema && KindOf(ledger[f]) == schema[f]
  }
}
