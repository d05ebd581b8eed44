/** The current client (`OdooAPIManager` in `src/odoo_api_manager/_main.py`):
    how each operation shapes its call through the parameter builder, how
    read results are formatted, and how single values are unpacked. The
    XML-RPC transport is not modelled: an operation's effect is the
    `Invocation` it hands to `_request`, and a response is a parameter. */
module Client {
  import opened Wrappers
  import opened PyValues
  import opened Dispatch
  import P = Params
  import C = Criteria

  /** What an operation hands to `_request`: `kwargs` is `None` when the
      operation does not pass that argument at all. */
  datatype Invocation = Invocation(model: string, methodName: string, args: seq<Value>,
                                   kwargs: Option<map<string, Value>>)

  /** The client after `__init__`: the session of the handshake and the
      default output format. */
  class Manager {
    var session: Session
    var defaultOutput: string
    var maskedToken: string

    /** `__init__`: the credentials and the user id of the handshake (taken
        as a parameter; the handshake is remote) form the session; the
        session summary shows the token only as asterisks. */
    constructor (db: string, uid: int, token: string, defaultOutput: string)
      ensures session == Session(db, uid, token)
      ensures this.defaultOutput == defaultOutput
      ensures |maskedToken| == |token| && forall i :: 0 <= i < |maskedToken| ==> maskedToken[i] == '*'
    {
      session := Session(db, uid, token);
      this.defaultOutput := defaultOutput;
      maskedToken := seq(|token|, _ => '*');
    }

    /** `self._request(model, method, args, kwargs)`: the call goes out
        under this client's session, or fails before sending when `kwargs`
        is left out. */
    method Send(inv: Invocation) returns (r: Result<Wire, PyException>)
      ensures r == RequestAsWritten(session, inv)
      ensures r.Failure? <==> inv.kwargs.None?
      ensures r.Success? ==> r.value.db == session.db && r.value.uid == session.uid && r.value.token == session.token
      ensures r.Success? ==> r.value.model == inv.model && r.value.methodName == inv.methodName
    {
      if inv.kwargs.None? {
        return Failure(TypeError("_request() missing required argument: 'kwargs'"));
      }
      r := Success(WireOf(session, inv.model, inv.methodName, inv.args, inv.kwargs.value));
    }
  }

  // ----- `_request` -----

  /** `_request` as written: `kwargs` is a required parameter, so a call
      that leaves it out raises `TypeError` before anything is sent. */
  function RequestAsWritten(s: Session, inv: Invocation): (r: Result<Wire, PyException>)
    ensures r.Failure? <==> inv.kwargs.None?
    ensures r.Failure? ==> r.error.TypeError?
    ensures r.Success? ==> r.value.args == inv.args && r.value.kwargs == inv.kwargs.value
  {
    match inv.kwargs
    case None => Failure(TypeError("_request() missing required argument: 'kwargs'"))
    case Some(kw) => Success(WireOf(s, inv.model, inv.methodName, inv.args, kw))
  }

  /** `_request` with `kwargs` defaulting to `{}`, as in the earlier
      clients: every invocation reaches the wire. */
  function Request(s: Session, inv: Invocation): (w: Wire)
    ensures w.db == s.db && w.uid == s.uid && w.token == s.token
    ensures w.model == inv.model && w.methodName == inv.methodName && w.args == inv.args
    ensures inv.kwargs.None? ==> w.kwargs == map[]
  {
    WireOf(s, inv.model, inv.methodName, inv.args, if inv.kwargs.Some? then inv.kwargs.value else map[])
  }

  /** The two agree on every invocation that passes `kwargs`. */
  lemma RequestAgrees(s: Session, inv: Invocation)
    ensures inv.kwargs.Some? ==> RequestAsWritten(s, inv) == Success(Request(s, inv))
  {
  }

  // ----- shaping helpers -----

  /** `_convert_to_list`: a list as is, anything else wrapped in one. */
  function ConvertToList(v: Value): (r: Value)
    ensures r.VList?
    ensures v.VList? ==> r == v
    ensures !v.VList? ==> r == VList([v])
  {
    if v.VList? then v else VList([v])
  }

  lemma ConvertToListIdempotent(v: Value)
    ensures ConvertToList(ConvertToList(v)) == ConvertToList(v)
  {
  }

  /** An optional integer as the builder receives it. */
  function IntOrNone(o: Option<int>): (v: Value)
    ensures v == VNone <==> o.None?
  {
    if o.Some? then VInt(o.value) else VNone
  }

  /** An optional field list as the builder receives it. */
  function FieldsOrNone(o: Option<seq<string>>): (v: Value)
    ensures v == VNone <==> o.None?
  {
    if o.Some? then VList(Strs(o.value)) else VNone
  }

  /** The keyword map the builder yields from optional fields, offset and
      limit: one entry per ingredient given, with its value. */
  function Paging(fields: Option<seq<string>>, offset: Option<int>, limit: Option<int>): (m: map<string, Value>)
    ensures "fields" in m <==> fields.Some?
    ensures "offset" in m <==> offset.Some?
    ensures "limit" in m <==> limit.Some?
    ensures m.Keys <= {"fields", "offset", "limit"}
    ensures "fields" in m ==> m["fields"] == VList(Strs(fields.value))
    ensures "offset" in m ==> m["offset"] == VInt(offset.value)
    ensures "limit" in m ==> m["limit"] == VInt(limit.value)
  {
    var m := P.Kwargs(FieldsOrNone(fields), IntOrNone(offset), IntOrNone(limit), VNone, None);
    P.KwargsShape(FieldsOrNone(fields), IntOrNone(offset), IntOrNone(limit), VNone, None);
    P.NamedKwargKept("fields", FieldsOrNone(fields), IntOrNone(offset), IntOrNone(limit), VNone, None);
    P.NamedKwargKept("offset", FieldsOrNone(fields), IntOrNone(offset), IntOrNone(limit), VNone, None);
    P.NamedKwargKept("limit", FieldsOrNone(fields), IntOrNone(offset), IntOrNone(limit), VNone, None);
    P.NamedKwargKept("raise_exception", FieldsOrNone(fields), IntOrNone(offset), IntOrNone(limit), VNone, None);
    m
  }

  // ----- the operations -----

  /** `check_access_rights(model, right_type, raise_exception=False)`. */
  function CheckAccessRights(model: string, rightType: Value, raiseException: bool): (inv: Invocation)
    ensures inv.model == model && inv.methodName == "check_access_rights"
    ensures inv.args == P.Present(rightType)
    ensures inv.kwargs == Some(map["raise_exception" := VBool(raiseException)])
  {
    P.CanonicalArgsOrder(VNone, VNone, VNone, rightType);
    var kw := P.Kwargs(VNone, VNone, VNone, VBool(raiseException), None);
    P.KwargsShape(VNone, VNone, VNone, VBool(raiseException), None);
    P.NamedKwargKept("raise_exception", VNone, VNone, VNone, VBool(raiseException), None);
    assert kw.Keys == {"raise_exception"} && kw["raise_exception"] == VBool(raiseException);
    assert kw == map["raise_exception" := VBool(raiseException)];
    Invocation(model, "check_access_rights", P.CanonicalArgs(VNone, VNone, VNone, rightType), Some(kw))
  }

  /** `create(model, records_data)`: the data, as a list, is the one
      positional argument; no keyword argument is passed. */
  function Create(model: string, recordsData: Value): (inv: Invocation)
    ensures inv.model == model && inv.methodName == "create"
    ensures inv.args == [ConvertToList(recordsData)]
    ensures inv.kwargs == None
  {
    P.CanonicalArgsOrder(VNone, VNone, ConvertToList(recordsData), VNone);
    Invocation(model, "create", P.CanonicalArgs(VNone, VNone, ConvertToList(recordsData), VNone), None)
  }

  /** `search(model, search_criteria=[], offset=None, limit=None)`: the
      criteria is always sent, even when empty; offset and limit whenever
      given, `0` included. */
  function Search(model: string, criteria: seq<C.Token>, offset: Option<int>, limit: Option<int>): (inv: Invocation)
    ensures inv.model == model && inv.methodName == "search"
    ensures inv.args == [C.ToValue(criteria)]
    ensures inv.kwargs == Some(Paging(None, offset, limit))
  {
    P.CanonicalArgsOrder(VNone, C.ToValue(criteria), VNone, VNone);
    Invocation(model, "search", P.CanonicalArgs(VNone, C.ToValue(criteria), VNone, VNone),
               Some(P.Kwargs(VNone, IntOrNone(offset), IntOrNone(limit), VNone, None)))
  }

  /** `read(model, record_ids, fields=None)`. */
  function Read(model: string, recordIds: Value, fields: Option<seq<string>>): (inv: Invocation)
    ensures inv.model == model && inv.methodName == "read"
    ensures inv.args == [ConvertToList(recordIds)]
    ensures inv.kwargs == Some(Paging(fields, None, None))
  {
    P.CanonicalArgsOrder(ConvertToList(recordIds), VNone, VNone, VNone);
    Invocation(model, "read", P.CanonicalArgs(ConvertToList(recordIds), VNone, VNone, VNone),
               Some(P.Kwargs(FieldsOrNone(fields), VNone, VNone, VNone, None)))
  }

  /** `search_read(model, search_criteria=[], fields=None, offset=None, limit=None)`. */
  function SearchRead(model: string, criteria: seq<C.Token>, fields: Option<seq<string>>,
                      offset: Option<int>, limit: Option<int>): (inv: Invocation)
    ensures inv.model == model && inv.methodName == "search_read"
    ensures inv.args == [C.ToValue(criteria)]
    ensures inv.kwargs == Some(Paging(fields, offset, limit))
  {
    P.CanonicalArgsOrder(VNone, C.ToValue(criteria), VNone, VNone);
    Invocation(model, "search_read", P.CanonicalArgs(VNone, C.ToValue(criteria), VNone, VNone),
               Some(P.Kwargs(FieldsOrNone(fields), IntOrNone(offset), IntOrNone(limit), VNone, None)))
  }

  /** `search_count(model, search_criteria=[])`: no keyword argument. */
  function SearchCount(model: string, criteria: seq<C.Token>): (inv: Invocation)
    ensures inv.model == model && inv.methodName == "search_count"
    ensures inv.args == [C.ToValue(criteria)]
    ensures inv.kwargs == None
  {
    P.CanonicalArgsOrder(VNone, C.ToValue(criteria), VNone, VNone);
    Invocation(model, "search_count", P.CanonicalArgs(VNone, C.ToValue(criteria), VNone, VNone), None)
  }

  /** `write(model, record_ids, record_data)`: ids as a list, then the data
      unless it is `None`; no keyword argument. */
  function Write(model: string, recordIds: Value, recordData: Value): (inv: Invocation)
    ensures inv.model == model && inv.methodName == "write"
    ensures inv.args == [ConvertToList(recordIds)] + P.Present(recordData)
    ensures inv.kwargs == None
  {
    P.CanonicalArgsOrder(ConvertToList(recordIds), VNone, recordData, VNone);
    Invocation(model, "write", P.CanonicalArgs(ConvertToList(recordIds), VNone, recordData, VNone), None)
  }

  /** `unlink(model, record_ids)`: no keyword argument. */
  function Unlink(model: string, recordIds: Value): (inv: Invocation)
    ensures inv.model == model && inv.methodName == "unlink"
    ensures inv.args == [ConvertToList(recordIds)]
    ensures inv.kwargs == None
  {
    P.CanonicalArgsOrder(ConvertToList(recordIds), VNone, VNone, VNone);
    Invocation(model, "unlink", P.CanonicalArgs(ConvertToList(recordIds), VNone, VNone, VNone), None)
  }

  /** `execute(model, method, record_ids, kwargs={})`: a `Params` is built
      with the caller's map, but the caller's map itself is what is sent,
      `None` values included. */
  function Execute(model: string, methodName: string, recordIds: Value, kwargs: map<string, Value>): (inv: Invocation)
    ensures inv.model == model && inv.methodName == methodName
    ensures inv.args == [ConvertToList(recordIds)]
    ensures inv.kwargs == Some(kwargs)
  {
    P.CanonicalArgsOrder(ConvertToList(recordIds), VNone, VNone, VNone);
    Invocation(model, methodName, P.CanonicalArgs(ConvertToList(recordIds), VNone, VNone, VNone), Some(kwargs))
  }

  /** Because the raw map is forwarded, an entry set to `None` reaches the
      wire although the builder would have elided it. */
  lemma ExecuteForwardsNone(s: Session, model: string, methodName: string, recordIds: Value,
                            kwargs: map<string, Value>, key: string)
    requires key in kwargs && kwargs[key] == VNone && key != P.ExtraKey
    ensures key in Request(s, Execute(model, methodName, recordIds, kwargs)).kwargs
    ensures key !in P.Kwargs(VNone, VNone, VNone, VNone, Some(kwargs))
  {
    P.ExtraEntryWins(key, VNone, VNone, VNone, VNone, kwargs);
  }

  /** `execute`'s answer: a dict means the method opened a wizard, which
      is refused with `NotImplementedError`; anything else is returned. */
  function ExecuteResult(response: Value): (r: Result<Value, PyException>)
    ensures r.Failure? <==> response.VDict?
    ensures r.Failure? ==> r.error == NotImplementedError
    ensures r.Success? ==> r.value == response
  {
    if response.VDict? then Failure(NotImplementedError) else Success(response)
  }

  /** `model_fields(model, attributes, fields=None)`: a `search_read` on
      `ir.model.fields` with the field-catalog criteria, asking for the
      attributes as fields. */
  function ModelFields(model: string, attributes: seq<string>, fields: Option<seq<string>>): (inv: Invocation)
    ensures inv.model == "ir.model.fields" && inv.methodName == "search_read"
    ensures inv.args == [C.ToValue(C.FieldCatalogCriteria(model, fields))]
    ensures inv.kwargs == Some(map["fields" := VList(Strs(attributes))])
  {
    var inv := SearchRead("ir.model.fields", C.FieldCatalogCriteria(model, fields), Some(attributes), None, None);
    var kw := inv.kwargs.value;
    assert kw.Keys == {"fields"} && kw["fields"] == VList(Strs(attributes));
    assert kw == map["fields" := VList(Strs(attributes))];
    inv
  }

  /** Without `kwargs`, create, search_count, write and unlink never reach
      the wire as written; with the default the corrected `_request` sends
      them with `{}`, while the operations that pass `kwargs` are unaffected. */
  lemma MissingKwargsFinding(s: Session, model: string, recordIds: Value, data: Value, criteria: seq<C.Token>)
    ensures RequestAsWritten(s, Create(model, data)).Failure?
    ensures RequestAsWritten(s, SearchCount(model, criteria)).Failure?
    ensures RequestAsWritten(s, Write(model, recordIds, data)).Failure?
    ensures RequestAsWritten(s, Unlink(model, recordIds)).Failure?
    ensures Request(s, Create(model, data)).kwargs == map[]
    ensures Request(s, Unlink(model, recordIds)).args == [ConvertToList(recordIds)]
    ensures RequestAsWritten(s, Read(model, recordIds, None)) == Success(Request(s, Read(model, recordIds, None)))
  {
  }

  // ----- output formatting -----

  /** What a read operation returns: the response as received, or a
      DataFrame built from it (the table construction is not modelled). */
  datatype Output = Raw(response: Value) | Frame(records: Value) {
    function Content(): Value {
      match this
      case Raw(v) => v
      case Frame(v) => v
    }
  }

  /** Whether `_build_output` turns its input into a DataFrame. */
  predicate WantsFrame(output: Option<string>, defaultOutput: string) {
    ((output.None? || output == Some("")) && defaultOutput == "dataframe") || output == Some("dataframe")
  }

  /** `_build_output(response, output)`: a falsy `output` defers to the
      client's default, `"dataframe"` builds a DataFrame, anything else
      returns the input unchanged. */
  function BuildOutput(o: Output, output: Option<string>, defaultOutput: string): (r: Output)
    ensures r.Content() == o.Content()
    ensures r.Frame? <==> WantsFrame(output, defaultOutput) || o.Frame?
    ensures !WantsFrame(output, defaultOutput) ==> r == o
  {
    if output.None? || output == Some("") then
      if defaultOutput == "dataframe" then Frame(o.Content())
      else if output == Some("dataframe") then Frame(o.Content()) else o
    else if output == Some("dataframe") then Frame(o.Content())
    else o
  }

  /** Formatting twice with the same request is formatting once. */
  lemma BuildOutputIdempotent(o: Output, output: Option<string>, defaultOutput: string)
    ensures BuildOutput(BuildOutput(o, output, defaultOutput), output, defaultOutput)
         == BuildOutput(o, output, defaultOutput)
  {
  }

  /** `model_fields`' result as written: `search_read` is called without
      `output`, so it formats by the default first, and `_build_output`
      then formats that again. */
  function ModelFieldsOutputAsWritten(response: Value, output: Option<string>, defaultOutput: string): (r: Output)
    ensures r.Content() == response
    ensures r.Frame? <==> WantsFrame(output, defaultOutput) || WantsFrame(None, defaultOutput)
  {
    BuildOutput(BuildOutput(Raw(response), None, defaultOutput), output, defaultOutput)
  }

  /** `model_fields`' result with `output` passed on to `search_read`: a
      DataFrame exactly when one is asked for, the records otherwise. */
  function ModelFieldsOutput(response: Value, output: Option<string>, defaultOutput: string): (r: Output)
    ensures r.Content() == response
    ensures r.Frame? <==> WantsFrame(output, defaultOutput)
    ensures r == BuildOutput(Raw(response), output, defaultOutput)
  {
    BuildOutputIdempotent(Raw(response), output, defaultOutput);
    BuildOutput(BuildOutput(Raw(response), output, defaultOutput), output, defaultOutput)
  }

  /** With the default output `"dataframe"`, `model_fields(output="dict")`
      still returns a DataFrame as written; the corrected flow returns the
      records. */
  lemma ModelFieldsDictIgnored(response: Value)
    ensures ModelFieldsOutputAsWritten(response, Some("dict"), "dataframe") == Frame(response)
    ensures ModelFieldsOutput(response, Some("dict"), "dataframe") == Raw(response)
  {
  }

  // ----- single values -----

  /** The values of `fields` in `record`, in order, or the `KeyError` of
      the first field the record lacks. */
  function Lookup(record: map<string, Value>, fields: seq<string>): (r: Result<seq<Value>, PyException>)
    ensures r.Success? <==> forall f :: f in fields ==> f in record
    ensures r.Success? ==> |r.value| == |fields| && forall i :: 0 <= i < |fields| ==> r.value[i] == record[fields[i]]
    ensures r.Failure? ==> exists i :: 0 <= i < |fields| && r.error == KeyError(fields[i]) && fields[i] !in record
                                        && forall j :: 0 <= j < i ==> fields[j] in record
  {
    if fields == [] then Success([])
    else if fields[0] !in record then
      assert 0 < |fields| && fields[0] !in record;
      Failure(KeyError(fields[0]))
    else
      match Lookup(record, fields[1..])
      case Failure(e) =>
        ghost var i :| 0 <= i < |fields[1..]| && e == KeyError(fields[1..][i]) && fields[1..][i] !in record
                       && forall j :: 0 <= j < i ==> fields[1..][j] in record;
        assert fields[i + 1] == fields[1..][i];
        Failure(e)
      case Success(vs) =>
        assert forall f :: f in fields ==> f == fields[0] || f in fields[1..];
        Success([record[fields[0]]] + vs)
  }

  /** `get_value(model, record_id, field)` on the records `read` returned:
      nothing read gives `None`, one record gives its value for `field`
      (`KeyError` if absent), more than one fails to unpack (`ValueError`). */
  function GetValue(records: seq<map<string, Value>>, field: string): (r: Result<Option<Value>, PyException>)
    ensures records == [] ==> r == Success(None)
    ensures |records| > 1 ==> r.Failure? && r.error.ValueError?
    ensures |records| == 1 ==> (r.Success? <==> field in records[0])
    ensures |records| == 1 && field in records[0] ==> r == Success(Some(records[0][field]))
    ensures |records| == 1 && field !in records[0] ==> r == Failure(KeyError(field))
  {
    if records == [] then Success(None)
    else if |records| > 1 then Failure(ValueError("too many values to unpack"))
    else if field in records[0] then Success(Some(records[0][field]))
    else Failure(KeyError(field))
  }

  /** `get_values(model, record_ids, fields)`: the same unpacking, then the
      tuple of the record's values in the order of `fields`. */
  function GetValues(records: seq<map<string, Value>>, fields: seq<string>): (r: Result<Option<Value>, PyException>)
    ensures records == [] ==> r == Success(None)
    ensures |records| > 1 ==> r.Failure? && r.error.ValueError?
    ensures |records| == 1 ==> (r.Success? <==> forall f :: f in fields ==> f in records[0])
    ensures |records| == 1 && r.Success? ==> r.value.Some?
    ensures r.Success? && r.value.Some? ==>
              r.value.value.VTuple? && |r.value.value.elems| == |fields|
              && forall i :: 0 <= i < |fields| ==> r.value.value.elems[i] == records[0][fields[i]]
    ensures |records| == 1 && r.Failure? ==>
              exists i :: 0 <= i < |fields| && r.error == KeyError(fields[i]) && fields[i] !in records[0]
                          && forall j :: 0 <= j < i ==> fields[j] in records[0]
  {
    if records == [] then Success(None)
    else if |records| > 1 then Failure(ValueError("too many values to unpack"))
    else match Lookup(records[0], fields)
      case Failure(e) => Failure(e)
      case Success(vs) => Success(Some(VTuple(vs)))
  }

  /** `get_value` is `get_values` of one field, unwrapped from its 1-tuple. */
  lemma GetValueIsOneFieldGetValues(records: seq<map<string, Value>>, field: string)
    ensures var one := GetValue(records, field);
            var many := GetValues(records, [field]);
            && (one.Success? <==> many.Success?)
            && (one.Failure? ==> one.error == many.error)
            && (one.Success? ==> (one.value.None? <==> many.value.None?))
            && (one.Success? && one.value.Some? ==> many.value.value == VTuple([one.value.value]))
  {
    if |records| == 1 {
      var l := Lookup(records[0], [field]);
      if field in records[0] {
        assert l.Success?;
        assert l.value == [records[0][field]];
      } else {
        assert field in [field];
      }
    }
  }

  /** The values come from a `read` with `output="dict"`, which never
      builds a DataFrame whatever the default. */
  lemma DictReadIsRaw(response: Value, defaultOutput: string)
    ensures BuildOutput(Raw(response), Some("dict"), defaultOutput) == Raw(response)
  {
  }
}
