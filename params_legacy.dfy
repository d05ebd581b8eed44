/** The first generation of the parameter builder: the same `None`
    elision as the current one, without the extra keyword map. */
module ParamsLegacy {
  import opened Wrappers
  import opened PyValues
  import P = Params

  /** The keyword arguments this generation produces: the four named
      ingredients that are not `None`. */
  function Kwargs(fields: Value, offset: Value, limit: Value, raiseException: Value): (r: map<string, Value>)
    ensures r.Keys <= P.NamedKeys
    ensures forall k :: k in P.NamedKeys ==>
              var v := P.Named(k, fields, offset, limit, raiseException);
              (k in r <==> v != VNone) && (k in r ==> r[k] == v)
  {
    P.DropNoneValues(map["fields" := fields, "offset" := offset, "limit" := limit,
                         "raise_exception" := raiseException])
  }

  class Params {
    var args: seq<Value>
    var kwargs: map<string, Value>

    /** `Params(...)`: seeds both templates, then builds args and kwargs. */
    constructor (recordIds: Value, searchCriteria: Value, recordsData: Value, fields: Value,
                 offset: Value, limit: Value, raiseException: Value, rightType: Value)
      ensures args == P.CanonicalArgs(recordIds, searchCriteria, recordsData, rightType)
      ensures kwargs == Kwargs(fields, offset, limit, raiseException)
    {
      args := [recordIds, searchCriteria, recordsData, rightType];
      kwargs := map["fields" := fields, "offset" := offset, "limit" := limit,
                    "raise_exception" := raiseException];
      new;
      BuildArgs();
      BuildKwargs();
    }

    /** `_build_args`: keeps the entries that are not `None`. */
    method BuildArgs()
      modifies this
      ensures args == P.DropNone(old(args))
      ensures kwargs == old(kwargs)
    {
      args := P.DropNone(args);
    }

    /** `_build_kwargs`: keeps the entries whose value is not `None`. */
    method BuildKwargs()
      modifies this
      ensures kwargs == P.DropNoneValues(old(kwargs))
      ensures args == old(args)
    {
      kwargs := map k | k in kwargs && kwargs[k] != VNone :: kwargs[k];
    }
  }

  /** The current builder, given no extra map, builds exactly what this
      generation builds. */
  lemma SameAsCurrentWithoutExtra(fields: Value, offset: Value, limit: Value, raiseException: Value)
    ensures P.Kwargs(fields, offset, limit, raiseException, None) == Kwargs(fields, offset, limit, raiseException)
  {
    var a := P.Kwargs(fields, offset, limit, raiseException, None);
    var b := Kwargs(fields, offset, limit, raiseException);
    assert a.Keys == b.Keys;
  }

  /** At most four of each are sent, and with every input `None` nothing is. */
  lemma Bounds(recordIds: Value, criteria: Value, recordsData: Value, rightType: Value,
               fields: Value, offset: Value, limit: Value, raiseException: Value)
    ensures |P.CanonicalArgs(recordIds, criteria, recordsData, rightType)| <= 4
    ensures |Kwargs(fields, offset, limit, raiseException)| <= 4
    ensures Kwargs(VNone, VNone, VNone, VNone) == map[]
  {
    var r := Kwargs(fields, offset, limit, raiseException);
    assert |r.Keys| <= |P.NamedKeys| by {
      SubsetCard(r.Keys, P.NamedKeys);
    }
    assert Kwargs(VNone, VNone, VNone, VNone).Keys == {};
  }

  lemma SubsetCard(a: set<string>, b: set<string>)
    requires a <= b
    ensures |a| <= |b|
  {
    assert b == a + (b - a);
  }
}
