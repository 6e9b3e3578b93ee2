/** JSON values as a parsed request body carries them, JavaScript's
    truthiness on them, and the shape of a driver record and of a request
    body. */
module Values {

  datatype Option<+T> = None | Some(value: T)

  /** A JSON value after body parsing. `Composite` stands for any array or
      object; the model never looks inside one. Numbers are reals: JSON has
      no NaN and no infinity. */
  datatype Value = Str(s: string) | Num(x: real) | Bool(b: bool) | Null | Composite

  /** JavaScript truthiness, for the values JSON can carry: the empty string,
      zero, `false` and `null` are falsy; every array and object is truthy. */
  predicate Truthy(v: Value)
    ensures !Truthy(v) <==> v in {Str(""), Num(0.0), Bool(false), Null}
  {
    match v
    case Str(s) => s != ""
    case Num(x) => x != 0.0
    case Bool(b) => b
    case Null => false
    case Composite => true
  }

  /** The properties a driver record can own. */
  datatype Key = Id | Name | Time | Points

  /** A driver record: a JavaScript object, as the map from its own
      properties to their values. A property that is absent is not a key. */
  type Record = map<Key, Value>

  /** A request body: the three properties the driver schemas declare, each
      possibly absent, and whether the body owns any other property (`id`
      among them). */
  datatype Payload = Payload(name: Option<Value>, time: Option<Value>, points: Option<Value>, extraKeys: bool)

  /** `body[key]`, with `None` for `undefined`. A body that owns an `id`
      property is one with `extraKeys` set; every schema refuses it, so no
      code path reads `id` from a body that owns one. */
  function Field(body: Payload, key: Key): Option<Value>
  {
    match key
    case Id => None
    case Name => body.name
    case Time => body.time
    case Points => body.points
  }

  /** `if (body[key])`: the body owns `key` and its value is truthy. */
  predicate Supplies(body: Payload, key: Key)
    ensures Supplies(body, key) ==> key != Id && Field(body, key).Some?
    ensures Field(body, key) == Some(Num(0.0)) ==> !Supplies(body, key)
  {
    Field(body, key).Some? && Truthy(Field(body, key).value)
  }
}
