/** The in-memory driver store and the handlers that read and change it:
    lookup by standings position, lookup by id, create (push, then sort),
    partial update (a field-by-field overwrite) and delete (splice). */
module Drivers {
  import opened Values
  import opened InputValidation

  /** What a handler sends back: 200 with a record, 200 with no body (the
      element at a fractional position is `undefined`), 400 with the
      validation error's details, or 404. */
  datatype Response = Ok(record: Record) | OkUndefined | BadRequest(violations: set<Violation>) | NotFound

  /** `d.id === id` */
  predicate HasId(r: Record, id: string)
  {
    Id in r && r[Id] == Str(id)
  }

  /** What the store keeps true of each record: a string id, a name and a
      time the schemas accept, and points, when present, in [0, 1000]. */
  predicate WellFormed(r: Record)
  {
    Id in r && r[Id].Str?
    && Name in r && TextOk(r[Name])
    && Time in r && TextOk(r[Time])
    && (Points in r ==> PointsOk(r[Points]))
  }

  /** No two records of `s` share an id. */
  predicate IdsDistinct(s: seq<Record>)
  {
    forall i, j :: 0 <= i < |s| && 0 <= j < |s| && i != j && Id in s[i] && Id in s[j] ==> s[i][Id] != s[j][Id]
  }

  /** `drivers.find((d) => d.id === id)`, as the index of the record found. */
  function FindIndex(s: seq<Record>, id: string): (r: Option<nat>)
    ensures r.Some? ==> r.value < |s| && HasId(s[r.value], id)
    ensures r.Some? ==> forall j :: 0 <= j < r.value ==> !HasId(s[j], id)
    ensures r.None? <==> forall j :: 0 <= j < |s| ==> !HasId(s[j], id)
  {
    if s == [] then None
    else if HasId(s[0], id) then Some(0)
    else
      match FindIndex(s[1..], id)
      case None => None
      case Some(i) => Some(i + 1)
  }

  /** `{ ...req.body, id: randomUUID() }`: the body's own properties, then
      the id. */
  function NewRecord(body: Payload, id: string): (r: Record)
    ensures HasId(r, id)
    ensures forall k :: k != Id ==> (k in r <==> Field(body, k).Some?)
    ensures forall k :: k != Id && k in r ==> r[k] == Field(body, k).value
  {
    (map k | k in {Name, Time, Points} && Field(body, k).Some? :: Field(body, k).value)[Id := Str(id)]
  }

  /** The record after `for (const key in selected) if (body[key])
      selected[key] = body[key]`: only properties the record already owns
      can change, and only to a truthy value of the body. */
  function Merge(selected: Record, body: Payload): (m: Record)
    ensures m.Keys == selected.Keys
    ensures forall k | k in selected && Supplies(body, k) :: m[k] == Field(body, k).value
    ensures forall k | k in selected && !Supplies(body, k) :: m[k] == selected[k]
  {
    map k | k in selected :: if Supplies(body, k) then Field(body, k).value else selected[k]
  }

  /** `drivers.splice(index, 1)`: the records before `i`, then those after
      it, each keeping its place relative to the others. */
  function RemoveAt(s: seq<Record>, i: nat): (r: seq<Record>)
    requires i < |s|
    ensures |r| == |s| - 1
    ensures forall p :: 0 <= p < |r| ==> r[p] == s[if p < i then p else p + 1]
  {
    s[..i] + s[i + 1..]
  }

  /** The number `d.points` compares as: a numeric `points`, or nothing when
      it is absent (`undefined`, which no comparison with `>` holds for). */
  function NumericPoints(r: Record): Option<real>
  {
    if Points in r && r[Points].Num? then Some(r[Points].x) else None
  }

  /** `x.points > y.points` */
  predicate Above(x: Record, y: Record)
  {
    NumericPoints(x).Some? && NumericPoints(y).Some? && NumericPoints(x).value > NumericPoints(y).value
  }

  /** The comparator handed to `drivers.sort`, with its parameters in the
      source's order `(b, a)`. */
  function Compare(b: Record, a: Record): (r: int)
    ensures r == 0 || r == 1
    ensures r == 0 <==> NumericPoints(a).None? || NumericPoints(b).None? || NumericPoints(a) == NumericPoints(b)
  {
    if Above(a, b) then 1
    else if Above(b, a) then 1
    else 0
  }

  /** The comparator is not consistent: for two records with different
      points it asks for each to go after the other. ECMAScript leaves the
      order of `sort` with such a comparator to the implementation, so the
      store promises only that sorting permutes the records. */
  lemma CompareIsNotAnOrdering(x: Record, y: Record)
    requires NumericPoints(x).Some? && NumericPoints(y).Some?
    ensures Compare(x, y) == Compare(y, x)
    ensures Compare(x, y) > 0 <==> NumericPoints(x) != NumericPoints(y)
    ensures Compare(x, y) >= 0
  {
  }

  /** The loop of the update handler, run on the selected record. */
  method MergeFields(selected: Record, body: Payload) returns (merged: Record)
    ensures merged == Merge(selected, body)
  {
    merged := selected;
    var pending := selected.Keys;
    while pending != {}
      invariant pending <= selected.Keys
      invariant merged.Keys == selected.Keys
      invariant forall k | k in selected && k !in pending :: merged[k] == Merge(selected, body)[k]
      invariant forall k | k in pending :: merged[k] == selected[k]
      decreases pending
    {
      var key :| key in pending;
      if Supplies(body, key) {
        merged := merged[key := Field(body, key).value];
      }
      pending := pending - {key};
    }
  }

  /** A record created from an accepted body is well formed, and it owns
      `points` only when the body did: the 0 that the schema's default puts
      in the validated value is never stored. */
  lemma CreatedRecord(body: Payload, id: string)
    requires ValidateDriverInfo(body).Accepted?
    ensures WellFormed(NewRecord(body, id))
    ensures Points in NewRecord(body, id) <==> body.points.Some?
    ensures body.points.None? ==> ValidateDriverInfo(body).value.points == Some(Num(DefaultPoints))
  {
  }

  /** An update with an accepted body keeps a record well formed and keeps
      its id; `points: 0` never overwrites, being falsy. */
  lemma MergeKeepsRecordWellFormed(selected: Record, body: Payload)
    requires WellFormed(selected)
    requires ValidateUpdateDriverInfo(body).Accepted?
    ensures WellFormed(Merge(selected, body))
    ensures Merge(selected, body)[Id] == selected[Id]
    ensures body.points == Some(Num(0.0)) && Points in selected ==> Merge(selected, body)[Points] == selected[Points]
  {
  }

  /** On a body the update schema accepts, every present property is truthy
      except `points: 0`: that is the only value the merge skips although
      the body supplies it. */
  lemma AcceptedUpdateSupplies(body: Payload, key: Key)
    requires ValidateUpdateDriverInfo(body).Accepted?
    ensures Supplies(body, key) <==> Field(body, key).Some? && Field(body, key) != Some(Num(0.0))
  {
  }

  /** A record that occurs at two indices occurs twice in the multiset. */
  lemma {:induction false} TwoIndicesTwoCopies(s: seq<Record>, i: nat, j: nat)
    requires i < j < |s| && s[i] == s[j]
    ensures multiset(s)[s[i]] >= 2
  {
    assert s == s[..j] + [s[j]] + s[j + 1..];
    assert s[..j][i] == s[i];
    assert s[i] in multiset(s[..j]);
  }

  /** Records with distinct ids occur once each. */
  lemma {:induction false} DistinctIdsSingleCopies(s: seq<Record>, x: Record)
    requires IdsDistinct(s)
    requires forall r | r in s :: Id in r
    ensures multiset(s)[x] <= 1
  {
    if s != [] {
      assert s == [s[0]] + s[1..];
      assert IdsDistinct(s[1..]) by {
        forall i, j | 0 <= i < |s[1..]| && 0 <= j < |s[1..]| && i != j && Id in s[1..][i] && Id in s[1..][j]
          ensures s[1..][i][Id] != s[1..][j][Id]
        {
          assert s[1..][i] == s[i + 1] && s[1..][j] == s[j + 1];
        }
      }
      DistinctIdsSingleCopies(s[1..], x);
      if x == s[0] {
        if x in s[1..] {
          var k :| 0 <= k < |s[1..]| && s[1..][k] == x;
          assert s[k + 1] == s[0];
        }
      }
    }
  }

  /** Sorting cannot make two records share an id: a permutation of records
      with distinct ids has distinct ids. */
  lemma PermutationKeepsIdsDistinct(a: seq<Record>, b: seq<Record>)
    requires multiset(a) == multiset(b)
    requires IdsDistinct(a)
    requires forall r | r in a :: Id in r
    ensures IdsDistinct(b)
  {
    forall i, j | 0 <= i < |b| && 0 <= j < |b| && i != j && Id in b[i] && Id in b[j]
      ensures b[i][Id] != b[j][Id]
    {
      if b[i] == b[j] {
        if i < j { TwoIndicesTwoCopies(b, i, j); } else { TwoIndicesTwoCopies(b, j, i); }
        DistinctIdsSingleCopies(a, b[i]);
        assert false;
      } else {
        assert b[i] in multiset(b) && b[j] in multiset(b);
        var p :| 0 <= p < |a| && a[p] == b[i];
        var q :| 0 <= q < |a| && a[q] == b[j];
        assert p != q;
      }
    }
  }

  /** Removing one record keeps the other ids distinct and leaves no record
      with the removed id; every other id is still found. */
  lemma RemoveAtKeepsIds(s: seq<Record>, i: nat, id: string)
    requires i < |s| && IdsDistinct(s) && HasId(s[i], id)
    ensures IdsDistinct(RemoveAt(s, i))
    ensures FindIndex(RemoveAt(s, i), id).None?
    ensures forall other :: other != id ==> (FindIndex(RemoveAt(s, i), other).Some? <==> FindIndex(s, other).Some?)
  {
    var r := RemoveAt(s, i);
    forall p, q | 0 <= p < |r| && 0 <= q < |r| && p != q && Id in r[p] && Id in r[q]
      ensures r[p][Id] != r[q][Id]
    {
      var p', q' := if p < i then p else p + 1, if q < i then q else q + 1;
      assert r[p] == s[p'] && r[q] == s[q'];
    }
    forall p | 0 <= p < |r| ensures !HasId(r[p], id) {
      assert r[p] == s[if p < i then p else p + 1];
    }
    forall other | other != id
      ensures FindIndex(r, other).Some? <==> FindIndex(s, other).Some?
    {
      if FindIndex(s, other).Some? {
        var k := FindIndex(s, other).value;
        assert k != i;
        assert r[if k < i then k else k - 1] == s[k];
      }
      if FindIndex(r, other).Some? {
        var k := FindIndex(r, other).value;
        assert s[if k < i then k else k + 1] == r[k];
      }
    }
  }

  /** The drivers collection, owned by one store object. */
  class DriverStore {
    var drivers: seq<Record>

    /** Ids are unique and every record is well formed. */
    ghost predicate Valid()
      reads this
    {
      IdsDistinct(drivers) && forall r | r in drivers :: WellFormed(r)
    }

    /** The store over the seed data it starts from. */
    constructor (seed: seq<Record>)
      requires IdsDistinct(seed)
      requires forall r | r in seed :: WellFormed(r)
      ensures Valid() && drivers == seed
    {
      drivers := seed;
    }

    /** GET /drivers/standings/:position: validate the position against the
        collection's length, then answer `drivers[position - 1]`, which is
        `undefined` for a position that is not a whole number. */
    function GetByPosition(position: Value): (resp: Response)
      reads this
      ensures resp.BadRequest? <==> !(position.Num? && 1.0 <= position.x <= |drivers| as real)
      ensures resp.BadRequest? ==> |resp.violations| == 1
      ensures resp.BadRequest? ==> resp.violations == {ValidatePosition(position, |drivers|).value}
      ensures resp.Ok? <==> position.Num? && 1.0 <= position.x <= |drivers| as real && position.x.Floor as real == position.x
      ensures resp.Ok? ==> 1 <= position.x.Floor <= |drivers| && resp.record == drivers[position.x.Floor - 1]
      ensures !resp.NotFound?
    {
      match ValidatePosition(position, |drivers|)
      case Some(error) => BadRequest({error})
      case None =>
        var p := position.x.Floor;
        if p as real == position.x then Ok(drivers[p - 1]) else OkUndefined
    }

    /** GET /drivers/:id: the first record with that id, or 404. */
    function GetById(id: string): (resp: Response)
      reads this
      ensures resp.Ok? || resp.NotFound?
      ensures resp.NotFound? <==> forall j :: 0 <= j < |drivers| ==> !HasId(drivers[j], id)
      ensures resp.Ok? ==> exists i :: 0 <= i < |drivers| && resp.record == drivers[i]
                            && HasId(drivers[i], id) && forall j :: 0 <= j < i ==> !HasId(drivers[j], id)
    {
      match FindIndex(drivers, id)
      case None => NotFound
      case Some(i) => Ok(drivers[i])
    }

    /** `drivers.sort(...)` with the inconsistent comparator `Compare`: some
        permutation of the records. */
    method Sort()
      requires Valid()
      modifies this
      ensures Valid()
      ensures |drivers| == |old(drivers)|
      ensures multiset(drivers) == multiset(old(drivers))
    {
      var ranked :| multiset(ranked) == multiset(drivers);
      PermutationKeepsIdsDistinct(drivers, ranked);
      assert |ranked| == |multiset(ranked)| == |multiset(drivers)| == |drivers|;
      assert forall r | r in ranked :: r in multiset(drivers);
      drivers := ranked;
    }

    /** POST /drivers: validate the body; push it with the fresh id, sort, and
        answer the new record. `newId` is what `randomUUID()` returns, taken
        to be an id no record has. */
    method Create(body: Payload, newId: string) returns (resp: Response)
      requires Valid()
      requires forall r | r in drivers :: !HasId(r, newId)
      modifies this
      ensures Valid()
      ensures ValidateDriverInfo(body).Rejected? ==>
        resp == BadRequest(ValidateDriverInfo(body).violations) && drivers == old(drivers)
      ensures ValidateDriverInfo(body).Accepted? ==>
        resp == Ok(NewRecord(body, newId))
        && |drivers| == |old(drivers)| + 1
        && multiset(drivers) == multiset(old(drivers)) + multiset{NewRecord(body, newId)}
    {
      var check := ValidateDriverInfo(body);
      if check.Rejected? {
        return BadRequest(check.violations);
      }
      var created := NewRecord(body, newId);
      CreatedRecord(body, newId);
      assert IdsDistinct(drivers + [created]) by {
        var s := drivers + [created];
        forall i, j | 0 <= i < |s| && 0 <= j < |s| && i != j && Id in s[i] && Id in s[j]
          ensures s[i][Id] != s[j][Id]
        {
          if i < |drivers| && j < |drivers| {
            assert s[i] == drivers[i] && s[j] == drivers[j];
          } else if i < |drivers| {
            assert s[i] in drivers;
          } else {
            assert s[j] in drivers;
          }
        }
      }
      drivers := drivers + [created];
      Sort();
      resp := Ok(created);
    }

    /** PUT /drivers/:id: validate the body first, then find the record and
        overwrite its own properties with the body's truthy values. The
        collection is not sorted again. */
    method Update(id: string, body: Payload) returns (resp: Response)
      requires Valid()
      modifies this
      ensures Valid()
      ensures ValidateUpdateDriverInfo(body).Rejected? ==>
        resp == BadRequest(ValidateUpdateDriverInfo(body).violations) && drivers == old(drivers)
      ensures ValidateUpdateDriverInfo(body).Accepted? && FindIndex(old(drivers), id).None? ==>
        resp == NotFound && drivers == old(drivers)
      ensures ValidateUpdateDriverInfo(body).Accepted? && FindIndex(old(drivers), id).Some? ==>
        var i := FindIndex(old(drivers), id).value;
        drivers == old(drivers)[i := Merge(old(drivers)[i], body)] && resp == Ok(drivers[i])
      ensures |drivers| == |old(drivers)|
      ensures forall j :: 0 <= j < |drivers| ==>
        drivers[j].Keys == old(drivers)[j].Keys && (Id in drivers[j] ==> drivers[j][Id] == old(drivers)[j][Id])
    {
      var check := ValidateUpdateDriverInfo(body);
      if check.Rejected? {
        return BadRequest(check.violations);
      }
      var found := FindIndex(drivers, id);
      if found.None? {
        return NotFound;
      }
      var i := found.value;
      var merged := MergeFields(drivers[i], body);
      MergeKeepsRecordWellFormed(drivers[i], body);
      ghost var before := drivers;
      drivers := drivers[i := merged];
      assert forall j :: 0 <= j < |drivers| ==>
        drivers[j].Keys == before[j].Keys && (Id in drivers[j] ==> drivers[j][Id] == before[j][Id]);
      resp := Ok(merged);
    }

    /** DELETE /drivers/:id: find the record and splice it out, answering the
        removed record, or 404. */
    method Delete(id: string) returns (resp: Response)
      requires Valid()
      modifies this
      ensures Valid()
      ensures FindIndex(old(drivers), id).None? ==> resp == NotFound && drivers == old(drivers)
      ensures FindIndex(old(drivers), id).Some? ==>
        var i := FindIndex(old(drivers), id).value;
        resp == Ok(old(drivers)[i]) && drivers == RemoveAt(old(drivers), i)
        && FindIndex(drivers, id).None?
    {
      var found := FindIndex(drivers, id);
      if found.None? {
        return NotFound;
      }
      var i := found.value;
      var removed := drivers[i];
      RemoveAtKeepsIds(drivers, i, id);
      drivers := RemoveAt(drivers, i);
      resp := Ok(removed);
    }
  }
}
