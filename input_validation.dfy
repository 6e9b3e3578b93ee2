/** The Joi schemas that guard the driver store: the create schema, the
    update schema and the position schema, written as plain rules over a
    `Payload`. A check is pure: it returns a result and changes nothing. */
module InputValidation {
  import opened Values

  /** The Joi error types these schemas can raise. */
  datatype Rule =
    | Required     // any.required
    | StringBase   // string.base: not a string
    | StringEmpty  // string.empty: the empty string
    | StringMin    // string.min
    | StringMax    // string.max
    | NumberBase   // number.base: not a number
    | NumberMin    // number.min
    | NumberMax    // number.max

  /** One entry of a Joi error's details. */
  datatype Violation =
    | OnField(key: Key, rule: Rule)  // a declared property of the body
    | UnknownKey                     // object.unknown: an undeclared property
    | TooFewKeys                     // object.min: the body owns no property
    | OnValue(rule: Rule)            // the validated value itself (a position)

  /** What `schema.validate` yields, as far as a handler uses it: no error
      and the validated value, or an error with its details. */
  datatype Check = Accepted(value: Payload) | Rejected(violations: set<Violation>)

  /** The two object schemas of the source. */
  datatype Schema = DriverSchema | UpdateDriverSchema

  const MinLength: nat := 3
  const MaxLength: nat := 50
  const MinPoints: real := 0.0
  const MaxPoints: real := 1000.0
  const DefaultPoints: real := 0.0

  /** A value that `Joi.string().min(3).max(50)` accepts. */
  predicate TextOk(v: Value)
  {
    v.Str? && MinLength <= |v.s| <= MaxLength
  }

  /** A value that `Joi.number().min(0).max(1000)` accepts. */
  predicate PointsOk(v: Value)
  {
    v.Num? && MinPoints <= v.x <= MaxPoints
  }

  /** Whether some violation in `vs` names the property `key`. */
  predicate Flags(vs: set<Violation>, key: Key)
  {
    OnField(key, Required) in vs
    || OnField(key, StringBase) in vs || OnField(key, StringEmpty) in vs
    || OnField(key, StringMin) in vs || OnField(key, StringMax) in vs
    || OnField(key, NumberBase) in vs || OnField(key, NumberMin) in vs
    || OnField(key, NumberMax) in vs
  }

  /** The error `Joi.string().min(3).max(50)` raises on a present value, if
      any (the rules of one value cannot fail together). */
  function TextRule(v: Value): Option<Rule>
  {
    if !v.Str? then Some(StringBase)
    else if v.s == "" then Some(StringEmpty)
    else if |v.s| < MinLength then Some(StringMin)
    else if |v.s| > MaxLength then Some(StringMax)
    else None
  }

  /** The error `Joi.number().min(0).max(1000)` raises on a present value. */
  function PointsRule(v: Value): Option<Rule>
  {
    if !v.Num? then Some(NumberBase)
    else if v.x < MinPoints then Some(NumberMin)
    else if v.x > MaxPoints then Some(NumberMax)
    else None
  }

  /** Whether one declared property passes its rules. */
  predicate FieldOk(key: Key, v: Option<Value>, required: bool)
  {
    if v.None? then !required
    else if key == Points then PointsOk(v.value)
    else TextOk(v.value)
  }

  /** The errors one declared property contributes: none exactly when the
      property passes, and each of them about that property. */
  function FieldViolations(key: Key, v: Option<Value>, required: bool): (vs: set<Violation>)
    ensures vs == {} <==> FieldOk(key, v, required)
    ensures Flags(vs, key) <==> !FieldOk(key, v, required)
    ensures forall other: Key :: other != key ==> !Flags(vs, other)
    ensures UnknownKey !in vs && TooFewKeys !in vs
    ensures OnField(key, Required) in vs <==> required && v.None?
    ensures forall w | w in vs :: w.OnField? && w.key == key
  {
    var rule :=
      if v.None? then (if required then Some(Required) else None)
      else if key == Points then PointsRule(v.value)
      else TextRule(v.value);
    if rule.None? then {} else {OnField(key, rule.value)}
  }

  /** Whether the body owns at least one property. */
  predicate HasSomeKey(body: Payload)
  {
    body.name.Some? || body.time.Some? || body.points.Some? || body.extraKeys
  }

  /** Every error the schema finds in the body: `abortEarly: false` makes Joi
      go on after the first one. `name` and `time` are required only by the
      create schema; `.min(1)` belongs to the update schema alone. */
  function Violations(schema: Schema, body: Payload): (vs: set<Violation>)
    ensures vs == {} <==>
      FieldOk(Name, body.name, schema == DriverSchema) && FieldOk(Time, body.time, schema == DriverSchema)
      && FieldOk(Points, body.points, false) && !body.extraKeys
      && (schema == UpdateDriverSchema ==> HasSomeKey(body))
    ensures Flags(vs, Name) <==> !FieldOk(Name, body.name, schema == DriverSchema)
    ensures Flags(vs, Time) <==> !FieldOk(Time, body.time, schema == DriverSchema)
    ensures Flags(vs, Points) <==> !FieldOk(Points, body.points, false)
    ensures UnknownKey in vs <==> body.extraKeys
    ensures TooFewKeys in vs <==> schema == UpdateDriverSchema && !HasSomeKey(body)
    ensures OnField(Name, Required) in vs <==> schema == DriverSchema && body.name.None?
    ensures OnField(Time, Required) in vs <==> schema == DriverSchema && body.time.None?
    ensures OnField(Points, Required) !in vs
  {
    var required := schema == DriverSchema;
    FieldViolations(Name, body.name, required)
    + FieldViolations(Time, body.time, required)
    + FieldViolations(Points, body.points, false)
    + (if body.extraKeys then {UnknownKey} else {})
    + (if schema == UpdateDriverSchema && !HasSomeKey(body) then {TooFewKeys} else {})
  }

  /** The value Joi returns on success: the create schema fills in
      `points: 0` when it is absent. */
  function Normalized(schema: Schema, body: Payload): (r: Payload)
    ensures r.name == body.name && r.time == body.time && r.extraKeys == body.extraKeys
    ensures body.points.Some? ==> r.points == body.points
    ensures body.points.None? ==> r.points == if schema == DriverSchema then Some(Num(DefaultPoints)) else None
  {
    if schema == DriverSchema && body.points.None? then body.(points := Some(Num(DefaultPoints)))
    else body
  }

  /** `validation(schema)`: the checker that validates with
      `abortEarly: false`. */
  function Validation(schema: Schema, body: Payload): (r: Check)
    ensures r.Accepted? <==> Violations(schema, body) == {}
    ensures r.Rejected? ==> r.violations == Violations(schema, body) && r.violations != {}
    ensures r.Accepted? ==> r.value.name == body.name && r.value.time == body.time && !r.value.extraKeys
  {
    var vs := Violations(schema, body);
    if vs == {} then Accepted(Normalized(schema, body)) else Rejected(vs)
  }

  /** `validateDriverInfo`: the create schema. */
  function ValidateDriverInfo(body: Payload): (r: Check)
    ensures r.Accepted? <==>
      body.name.Some? && TextOk(body.name.value)
      && body.time.Some? && TextOk(body.time.value)
      && (body.points.Some? ==> PointsOk(body.points.value))
      && !body.extraKeys
    ensures r.Accepted? ==>
      r.value.name == body.name && r.value.time == body.time && !r.value.extraKeys
      && r.value.points == (if body.points.None? then Some(Num(DefaultPoints)) else body.points)
    ensures r.Rejected? ==>
      r.violations != {}
      && (Flags(r.violations, Name) <==> !(body.name.Some? && TextOk(body.name.value)))
      && (Flags(r.violations, Time) <==> !(body.time.Some? && TextOk(body.time.value)))
      && (Flags(r.violations, Points) <==> (body.points.Some? && !PointsOk(body.points.value)))
      && (UnknownKey in r.violations <==> body.extraKeys)
      && TooFewKeys !in r.violations
    ensures body.name.None? ==> r.Rejected? && OnField(Name, Required) in r.violations
    ensures body.time.None? ==> r.Rejected? && OnField(Time, Required) in r.violations
  {
    Validation(DriverSchema, body)
  }

  /** `validateUpdateDriverInfo`: the update schema. */
  function ValidateUpdateDriverInfo(body: Payload): (r: Check)
    ensures r.Accepted? <==>
      (body.name.Some? || body.time.Some? || body.points.Some?)
      && (body.name.Some? ==> TextOk(body.name.value))
      && (body.time.Some? ==> TextOk(body.time.value))
      && (body.points.Some? ==> PointsOk(body.points.value))
      && !body.extraKeys
    ensures r.Accepted? ==> r.value == body
    ensures r.Rejected? ==>
      r.violations != {}
      && (Flags(r.violations, Name) <==> (body.name.Some? && !TextOk(body.name.value)))
      && (Flags(r.violations, Time) <==> (body.time.Some? && !TextOk(body.time.value)))
      && (Flags(r.violations, Points) <==> (body.points.Some? && !PointsOk(body.points.value)))
      && (UnknownKey in r.violations <==> body.extraKeys)
      && (TooFewKeys in r.violations <==> !HasSomeKey(body))
      && OnField(Name, Required) !in r.violations && OnField(Time, Required) !in r.violations
      && OnField(Points, Required) !in r.violations
  {
    Validation(UpdateDriverSchema, body)
  }

  /** `validatePosition(position, maxValue)`, that is
      `Joi.number().min(1).max(maxValue)` with Joi's default `abortEarly`,
      so at most the first error is reported. `None` is success. A numeric
      route parameter reaches it as `Num`, after Joi's conversion. */
  function ValidatePosition(position: Value, maxValue: int): (error: Option<Violation>)
    ensures error.None? <==> position.Num? && 1.0 <= position.x <= maxValue as real
    ensures error.Some? ==> error.value.OnValue?
    ensures !position.Num? ==> error == Some(OnValue(NumberBase))
    ensures position.Num? && position.x < 1.0 ==> error == Some(OnValue(NumberMin))
    ensures position.Num? && 1.0 <= position.x && position.x > maxValue as real ==> error == Some(OnValue(NumberMax))
  {
    if !position.Num? then Some(OnValue(NumberBase))
    else if position.x < 1.0 then Some(OnValue(NumberMin))
    else if position.x > maxValue as real then Some(OnValue(NumberMax))
    else None
  }
}
