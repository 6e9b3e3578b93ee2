# Driver store of the racing-drivers REST API, in Dafny

This project models the core of a small Express API that serves an
in-memory list of racing drivers. The core is the `drivers` collection,
the five handlers that read and change it, and the Joi schemas that guard
those handlers. The monolithic `app.js` and the refactored
`routes/driver.js` hold the same store logic almost line for line, so it is
modelled once.

- `Values` (`values.dfy`) holds what a JSON request body can carry. That is
  a string, a number, a boolean, `null` or an array/object, together with
  JavaScript truthiness on those values. A driver record is a map from its
  own properties (`id`, `name`, `time`, `points`) to values. A request body
  is a `Payload`. Each of its three declared properties may be absent, and
  a flag says whether it owns any other property.
- `InputValidation` (`input_validation.dfy`) holds the create schema, the
  update schema and the position schema, each as a pure function. The two
  object schemas return either the accepted value or the full set of
  violations, one per offending property. Like Joi with `abortEarly: false`,
  they report every violation and not only the first. The position check
  runs with Joi's default `abortEarly`. It returns no value, and at most
  one error: the first rule the position breaks.
- `Drivers` (`driver_store.dfy`) holds the class `DriverStore`, whose field
  `drivers: seq<Record>` is the collection. `Create`, `Update` and `Delete`
  are methods that change it. `Create` and `Update` validate first, as
  their handlers do. `GetById` and `GetByPosition` are functions that read it.
  The store invariant `Valid()` says that ids are distinct and that every
  record is well formed. Every mutation preserves it.

Where the code does not do what it evidently intends, the model follows
the code:

- **Ranking.** The sort comparator returns 1 when both records have numeric
  points and they differ, whichever is larger. It returns 0 when the points
  are equal or either record has no `points`. It is therefore not a
  consistent comparator
  (`CompareIsNotAnOrdering`), and ECMAScript leaves the resulting order to
  the engine. `Create` promises that the collection is a permutation of the
  old records plus the new one. It does not promise descending points, and
  it does not promise stability on ties.
- **The points default.** The 0 that the create schema fills in stays in
  Joi's returned value, which the handler discards. A driver created
  without `points` is stored without a `points` property (`CreatedRecord`).
- **The update merge.** It overwrites only properties the record already
  owns, and only with truthy values. So `points: 0` is ignored and no
  property is ever added. Update does not sort again.
- **Positions.** A position passes validation when it is any number in
  [1, length], not only a whole number. For a fractional position,
  `drivers[position - 1]` is `undefined`, and the handler answers 200 with
  no body (`OkUndefined`).

## Model

| member | source | states |
|---|---|---|
| `InputValidation.FieldViolations` | inputValidation.js:10-12 | One declared property raises no violation exactly when it passes its rules; every violation it raises names that property; `Required` appears exactly when a required property is missing |
| `InputValidation.Violations` | inputValidation.js:9-19 | Collecting every error (`abortEarly: false`): the set is empty exactly when every property passes, the body owns no undeclared key and, for the update schema, it owns some key; each failing property, an unknown key and an empty update body are each reported |
| `InputValidation.Normalized` | inputValidation.js:12 | Joi's returned value differs from the body only in `points`. The create schema fills in 0 when `points` is absent. The update schema adds nothing, and a present `points` is kept |
| `InputValidation.Validation` | inputValidation.js:3-7 | `validation(schema)` accepts exactly when the schema finds no violation. A rejection carries the whole set of violations, which is never empty. An accepted value keeps the body's `name` and `time` and has no undeclared key |
| `InputValidation.ValidateDriverInfo` | inputValidation.js:9-13 | Accepts exactly when `name` and `time` are strings of length 3..50, `points` is absent or a number in 0..1000, and no other key is present; the accepted value carries `points: 0` when it was absent; a rejection names exactly the failing properties, and a missing `name` or `time` is reported as required |
| `InputValidation.ValidateUpdateDriverInfo` | inputValidation.js:15-19 | Accepts exactly when at least one declared key is present, every present property meets the create bounds and no other key is present; the accepted value is the body itself; an empty body is rejected as having too few keys; nothing is ever reported as required |
| `InputValidation.ValidatePosition` | inputValidation.js:21-28 | Succeeds exactly on numbers p with 1 <= p <= maxValue, whole or not; otherwise it reports one error on the value: `number.base` for a non-number, `number.min` below 1, and `number.max` above maxValue |
| `Values.Truthy` | app.js:110 | The falsy JSON values are exactly `""`, `0`, `false` and `null`; every other string, number, array and object is truthy |
| `Values.Supplies` | app.js:110 | `if (req.body[key])` holds only for a key other than `id` that the body owns, and never when its value is `0` |
| `Drivers.AcceptedUpdateSupplies` | routes/driver.js:76-80 | On a body the update schema accepts, the merge test holds for a key exactly when the body owns it with a value other than `0`, so `points: 0` is the only present value skipped |
| `Drivers.FindIndex` | app.js:49 | `find` by id: the index of the first record whose id equals the argument, and none exactly when no record has that id |
| `Drivers.NewRecord` | app.js:72 | The created record has the given id and owns exactly the body's present properties, with the body's values |
| `Drivers.Merge` | app.js:109-113 | The merged record owns the same keys as before. An owned property whose body value is truthy takes that value. Every other property keeps its value |
| `Drivers.MergeFields` | routes/driver.js:76-80 | The `for...in` loop over the record's own keys computes exactly `Merge` of the record and the body |
| `Drivers.RemoveAt` | app.js:126-127 | `splice(index, 1)` leaves one record fewer, and every remaining record keeps its relative order (index p maps to p or p + 1) |
| `Drivers.Compare` | routes/driver.js:49-57 | The comparator returns only 0 or 1. It returns 0 exactly when the two points are equal or one of them is missing |
| `Drivers.CompareIsNotAnOrdering` | app.js:74-82 | The comparator, taken with its parameters in the source's `(b, a)` order, is symmetric and never negative; it is positive exactly when the two points differ, so it asks for each of two unequal records to go after the other |
| `Drivers.CreatedRecord` | app.js:60-72 | A record built from an accepted create body is well formed, and it owns `points` exactly when the body did, although the validated value defaults it to 0 |
| `Drivers.MergeKeepsRecordWellFormed` | app.js:87-113 | Merging an accepted update body keeps a record well formed and keeps its id; `points: 0` leaves the stored points unchanged |
| `Drivers.PermutationKeepsIdsDistinct` | routes/driver.js:47-57 | Any permutation of records with distinct ids, such as the sort's result, still has distinct ids |
| `Drivers.RemoveAtKeepsIds` | routes/driver.js:93-94 | After removing the record with a given id, ids stay distinct, no record has that id, and every other id is found exactly when it was found before |
| `Drivers.DriverStore.constructor` | routes/driver.js:3 | The store starts from the seed collection, which must have distinct ids and well-formed records |
| `Drivers.DriverStore.GetByPosition` | app.js:34-45 | 400 exactly when the position is not a number in [1, length], with the one error the position check reports; 200 with `drivers[p - 1]` exactly when it is also a whole number p; 200 with no body for a fractional position; never 404 |
| `Drivers.DriverStore.GetById` | routes/driver.js:28-38 | 404 exactly when no record has the id; otherwise 200 with the first record that has it |
| `Drivers.DriverStore.Sort` | app.js:74-82 | The sort leaves some permutation of the records, of the same length, and keeps the store invariant |
| `Drivers.DriverStore.Create` | routes/driver.js:40-59 | A rejected body yields 400 with every violation and no change. An accepted body yields 200 with the body plus the fresh id; the collection is one longer and is, as a multiset, the old records plus the new one; ids stay distinct |
| `Drivers.DriverStore.Update` | routes/driver.js:61-82 | Validation comes before the lookup: a rejected body yields 400 and no change even for an absent id. An absent id yields 404 and no change. Otherwise only the found record is replaced by its merge; length, order, every record's key set and every id are preserved |
| `Drivers.DriverStore.Delete` | app.js:117-130 | An absent id yields 404 and no change; otherwise 200 with the first record with that id, which is spliced out, leaving no record with that id and the others in order |

## Left out

- Express wiring is transport and I/O, so it is not modelled: `express()`, `express.json()`, the routers, `app.listen` and the console log. Status codes appear only as the `Response` variants.
- `GET /drivers` sends the `drivers` field as it is. That field is the model's state, so the handler needs no operation of its own.
- The team endpoints (`routes/team.js`, app.js:12-28) index into `generateTeamsArray()` from `data.js`. `data.js` is not part of this model. Their position check is the same `ValidatePosition`.
- The seed collection comes from `data.js`. The constructor takes it as a parameter and assumes it has distinct ids and well-formed records.
- `randomUUID()` is a foreign call. `Create` takes its result as the parameter `newId` and requires that no record already has that id.
- Drivers.DriverStore.Sort: the order of `Array.prototype.sort` under an inconsistent comparator is engine-defined. The model claims only a permutation, not the order any engine produces. Its body picks that permutation with a such-that statement, which verifies but has no compiled form, so the model is not executable as it stands.
- InputValidation.ValidateDriverInfo: Joi converts a numeric string such as `"10"` for `points` to a number. The model rejects it as `number.base`. The source stores the raw body, not Joi's converted value. So after an accepted `points: "10"` it would store the string `"10"`, and a later update with `points: "0"` (a truthy string) would overwrite it. The store invariant that stored points are numbers in [0, 1000] holds only because the model rejects such bodies.
- InputValidation.ValidateUpdateDriverInfo: the same numeric-string conversion is not modelled.
- InputValidation.ValidatePosition: the route parameter is always a string. The model takes the number that Joi's conversion, and the handler's `position - 1`, read from it.
- The shape of Joi's error object is not modelled: its messages, labels and the order of its details. The model keeps the set of (property, rule) violations.
- A body that is not an object (no JSON body at all) is not modelled, and neither are Joi's unsafe-number checks. Numbers are reals, so JSON's lack of NaN and infinity carries over.
- String lengths count `char`s. JavaScript counts UTF-16 code units.
- Object identity is not modelled. The handlers return and mutate the same object that the array holds, and `indexOf` finds it by reference. The model replaces the element at the index that `find` returned. Each record object occurs once in the array, so that index is the one `indexOf` finds.
