/** The parameter builder of the current client: turns the optional
    ingredients of one remote call into the positional `args` list and the
    keyword `kwargs` map, eliding `None` and nothing else. */
module Params {
  import opened Wrappers
  import opened PyValues

  /** The keyword ingredients the builder names itself. */
  const NamedKeys: set<string> := {"fields", "offset", "limit", "raise_exception"}

  /** The template key that carries the caller's extra keyword map. */
  const ExtraKey: string := "kwargs"

  /** The list with every `None` removed, the rest in their original order. */
  function DropNone(xs: seq<Value>): (r: seq<Value>)
    ensures |r| <= |xs|
    ensures forall v :: v in r ==> v != VNone && v in xs
    ensures forall v :: v in xs && v != VNone ==> v in r
  {
    if xs == [] then []
    else
      assert xs == [xs[0]] + xs[1..];
      (if xs[0] == VNone then [] else [xs[0]]) + DropNone(xs[1..])
  }

  lemma DropNoneCons(x: Value, xs: seq<Value>)
    ensures DropNone([x] + xs) == Present(x) + DropNone(xs)
  {
    assert ([x] + xs)[1..] == xs;
  }

  /** `[v]` when `v` is set, `[]` when it is `None`. */
  function Present(v: Value): (r: seq<Value>)
    ensures |r| <= 1
    ensures r == [] <==> v == VNone
    ensures r != [] ==> r[0] == v
  {
    if v == VNone then [] else [v]
  }

  /** The positional arguments: record ids, criteria, record data and right
      type, in this order, without the ones that are `None`. */
  function CanonicalArgs(recordIds: Value, criteria: Value, recordsData: Value, rightType: Value): seq<Value>
  {
    DropNone([recordIds, criteria, recordsData, rightType])
  }

  /** The extra keyword map as it sits in the template under `"kwargs"`. */
  function ExtraValue(extra: Option<map<string, Value>>): (v: Value)
    ensures v == VNone <==> extra.None?
  {
    match extra
    case None => VNone
    case Some(m) => VDict(m)
  }

  /** The keyword template seeded by the constructor. */
  function Template(fields: Value, offset: Value, limit: Value, raiseException: Value,
                    extra: Option<map<string, Value>>): (t: map<string, Value>)
    ensures t.Keys == NamedKeys + {ExtraKey}
  {
    map["fields" := fields, "offset" := offset, "limit" := limit,
        "raise_exception" := raiseException, ExtraKey := ExtraValue(extra)]
  }

  /** The map without its `None`-valued entries. */
  function DropNoneValues(m: map<string, Value>): (r: map<string, Value>)
    ensures r.Keys <= m.Keys
    ensures forall k :: k in m ==> (k in r <==> m[k] != VNone)
    ensures forall k :: k in r ==> r[k] == m[k] && r[k] != VNone
  {
    map k | k in m && m[k] != VNone :: m[k]
  }

  /** The template after the extra map, if any, has been copied into it
      (its entries overwrite the named ones) and the `"kwargs"` key removed. */
  function Merged(t: map<string, Value>): map<string, Value>
    requires ExtraKey in t && (t[ExtraKey].VNone? || t[ExtraKey].VDict?)
  {
    if t[ExtraKey] == VNone then t else (t + t[ExtraKey].entries) - {ExtraKey}
  }

  /** The keyword arguments the builder produces. */
  function Kwargs(fields: Value, offset: Value, limit: Value, raiseException: Value,
                  extra: Option<map<string, Value>>): map<string, Value>
  {
    DropNoneValues(Merged(Template(fields, offset, limit, raiseException, extra)))
  }

  /** The keys an extra map can contribute. */
  function ExtraKeys(extra: Option<map<string, Value>>): set<string> {
    if extra.Some? then extra.value.Keys else {}
  }

  /** The value the caller passed for one of the named keyword ingredients. */
  function Named(key: string, fields: Value, offset: Value, limit: Value, raiseException: Value): Value
    requires key in NamedKeys
  {
    if key == "fields" then fields
    else if key == "offset" then offset
    else if key == "limit" then limit
    else raiseException
  }

  class Params {
    var args: seq<Value>
    var kwargs: map<string, Value>

    /** `Params(...)`: seeds both templates, then builds args and kwargs. */
    constructor (recordIds: Value, searchCriteria: Value, recordsData: Value, fields: Value,
                 offset: Value, limit: Value, raiseException: Value, rightType: Value,
                 extra: Option<map<string, Value>>)
      ensures args == CanonicalArgs(recordIds, searchCriteria, recordsData, rightType)
      ensures kwargs == Kwargs(fields, offset, limit, raiseException, extra)
    {
      args := [recordIds, searchCriteria, recordsData, rightType];
      kwargs := map["fields" := fields, "offset" := offset, "limit" := limit,
                    "raise_exception" := raiseException, "kwargs" := ExtraValue(extra)];
      new;
      BuildArgs();
      BuildKwargs();
    }

    /** `_build_args`: keeps the entries that are not `None`. */
    method BuildArgs()
      modifies this
      ensures args == DropNone(old(args))
      ensures kwargs == old(kwargs)
    {
      args := DropNone(args);
    }

    /** `_build_kwargs`: copies the extra map entry by entry into the
        template, deletes the `"kwargs"` key, then drops `None` values. */
    method BuildKwargs()
      requires ExtraKey in kwargs && (kwargs[ExtraKey].VNone? || kwargs[ExtraKey].VDict?)
      modifies this
      ensures kwargs == DropNoneValues(Merged(old(kwargs)))
      ensures args == old(args)
    {
      if kwargs[ExtraKey] != VNone {
        var extra := kwargs[ExtraKey].entries;
        var pending := extra.Keys;
        while pending != {}
          invariant pending <= extra.Keys
          invariant kwargs == old(kwargs) + (map k | k in extra.Keys - pending :: extra[k])
          invariant args == old(args)
          decreases pending
        {
          var k :| k in pending;
          kwargs := kwargs[k := extra[k]];
          pending := pending - {k};
        }
        assert (map k | k in extra.Keys - {} :: extra[k]) == extra;
        kwargs := kwargs - {ExtraKey};
      }
      kwargs := map k | k in kwargs && kwargs[k] != VNone :: kwargs[k];
    }
  }

  // ----- properties of the builder -----

  /** Argument ordering stability: whichever ingredients are absent, the
      present ones appear in the canonical order. */
  lemma {:induction false} CanonicalArgsOrder(recordIds: Value, criteria: Value, recordsData: Value, rightType: Value)
    ensures CanonicalArgs(recordIds, criteria, recordsData, rightType)
         == Present(recordIds) + (Present(criteria) + (Present(recordsData) + Present(rightType)))
  {
    var s3: seq<Value> := [rightType];
    var s2 := [recordsData] + s3;
    var s1 := [criteria] + s2;
    var s0 := [recordIds] + s1;
    assert s0 == [recordIds, criteria, recordsData, rightType];
    DropNoneCons(rightType, []);
    assert s3 == [rightType] + [];
    assert DropNone(s3) == Present(rightType);
    DropNoneCons(recordsData, s3);
    DropNoneCons(criteria, s2);
    DropNoneCons(recordIds, s1);
  }

  /** Only `None` is elided: every set positional ingredient, however falsy
      (`0`, `False`, `""`, `[]`), is sent, and at most four are sent. */
  lemma FalsyArgsSurvive(recordIds: Value, criteria: Value, recordsData: Value, rightType: Value)
    ensures |CanonicalArgs(recordIds, criteria, recordsData, rightType)| <= 4
    ensures recordIds != VNone ==> CanonicalArgs(recordIds, criteria, recordsData, rightType)[0] == recordIds
    ensures forall v :: v in [recordIds, criteria, recordsData, rightType] && v != VNone
                        ==> v in CanonicalArgs(recordIds, criteria, recordsData, rightType)
  {
    CanonicalArgsOrder(recordIds, criteria, recordsData, rightType);
  }

  /** The shape of the keyword arguments: no `"kwargs"` key, no `None`
      value, keys drawn from the named ones and the extra map's. */
  lemma KwargsShape(fields: Value, offset: Value, limit: Value, raiseException: Value,
                    extra: Option<map<string, Value>>)
    ensures var r := Kwargs(fields, offset, limit, raiseException, extra);
            && ExtraKey !in r
            && (forall k :: k in r ==> r[k] != VNone)
            && r.Keys <= NamedKeys + ExtraKeys(extra)
  {
  }

  /** A named ingredient that no extra entry overrides is present exactly
      when it is not `None`, with the caller's value; `0` and `False` survive. */
  lemma NamedKwargKept(key: string, fields: Value, offset: Value, limit: Value, raiseException: Value,
                       extra: Option<map<string, Value>>)
    requires key in NamedKeys && key !in ExtraKeys(extra)
    ensures var r := Kwargs(fields, offset, limit, raiseException, extra);
            var v := Named(key, fields, offset, limit, raiseException);
            (key in r <==> v != VNone) && (key in r ==> r[key] == v)
  {
  }

  /** Merging happens before filtering: an extra entry overwrites a named
      ingredient of the same key, and an extra entry set to `None` is dropped. */
  lemma ExtraEntryWins(key: string, fields: Value, offset: Value, limit: Value, raiseException: Value,
                       extra: map<string, Value>)
    requires key in extra && key != ExtraKey
    ensures var r := Kwargs(fields, offset, limit, raiseException, Some(extra));
            (key in r <==> extra[key] != VNone) && (key in r ==> r[key] == extra[key])
  {
  }

  /** `Params(offset=0, limit=None, raise_exception=False)`: the falsy
      offset and raise_exception are sent, the `None` limit is not. */
  lemma ZeroAndFalseKept()
    ensures Kwargs(VNone, VInt(0), VNone, VBool(false), None) == map["offset" := VInt(0), "raise_exception" := VBool(false)]
  {
    var r := Kwargs(VNone, VInt(0), VNone, VBool(false), None);
    assert r.Keys == {"offset", "raise_exception"};
  }

  /** An entry of the extra map overrides the named argument of the same
      key. */
  lemma ExtraOverridesLimit()
    ensures Kwargs(VNone, VNone, VInt(10), VNone, Some(map["limit" := VInt(5)])) == map["limit" := VInt(5)]
  {
    var s := Kwargs(VNone, VNone, VInt(10), VNone, Some(map["limit" := VInt(5)]));
    assert s.Keys == {"limit"};
  }

  /** With every ingredient `None` the builder yields `[]` and `{}`. */
  lemma AllNoneIsEmpty()
    ensures CanonicalArgs(VNone, VNone, VNone, VNone) == []
    ensures Kwargs(VNone, VNone, VNone, VNone, None) == map[]
  {
    CanonicalArgsOrder(VNone, VNone, VNone, VNone);
    assert Kwargs(VNone, VNone, VNone, VNone, None).Keys == {};
  }
}
