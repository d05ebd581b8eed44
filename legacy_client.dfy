/** The request building of the two earlier clients (`odoo_api_manager.py`
    and its private twin `_odoo_api_manager.py`, whose helpers are the same
    code): positional data built by `_build_data`, keyword params by
    `_build_params`, both with Python truth tests rather than `None` checks. */
module LegacyClient {
  import opened Wrappers
  import opened PyValues
  import opened Dispatch
  import P = Params

  /** One call as these clients hand it to `_request(model, method, data, params)`. */
  datatype Call = Call(model: string, methodName: string, data: seq<Value>, params: map<string, Value>)

  /** `_request`: the wire tuple, with the client's session in front. */
  function Request(s: Session, c: Call): (w: Wire)
    ensures w == WireOf(s, c.model, c.methodName, c.data, c.params)
  {
    Wire(s.db, s.uid, s.token, c.model, c.methodName, c.data, c.params)
  }

  /** `_build_data(data, data_args=None)`. */
  function BuildData(data: Value, dataArgs: Value): (r: seq<Value>)
    ensures |r| == 2 <==> Truthy(dataArgs)
    ensures |r| == 1 <==> !Truthy(dataArgs)
    ensures r[0] == data
    ensures |r| == 2 ==> r[1] == dataArgs
  {
    if Truthy(dataArgs) then [data, dataArgs] else [data]
  }

  /** Whether `_build_params` keeps a named ingredient: `fields`, `offset`
      and `limit` by truth test, `raise_exception` whenever it is not `None`. */
  predicate Kept(key: string, v: Value) {
    if key == "raise_exception" then v != VNone else Truthy(v)
  }

  /** `m` with `key` set to `v` when `keep` holds, `m` itself otherwise. */
  function AddIf(m: map<string, Value>, keep: bool, key: string, v: Value): map<string, Value> {
    if keep then m[key := v] else m
  }

  /** The map `_build_params` returns. */
  function TruthyParams(fields: Value, offset: Value, limit: Value, raiseException: Value): (r: map<string, Value>)
    ensures r.Keys <= P.NamedKeys
    ensures forall k :: k in P.NamedKeys ==>
              var v := P.Named(k, fields, offset, limit, raiseException);
              (k in r <==> Kept(k, v)) && (k in r ==> r[k] == v)
  {
    var m0: map<string, Value> := map[];
    var m1 := AddIf(m0, Truthy(fields), "fields", fields);
    var m2 := AddIf(m1, Truthy(offset), "offset", offset);
    var m3 := AddIf(m2, Truthy(limit), "limit", limit);
    AddIf(m3, raiseException != VNone, "raise_exception", raiseException)
  }

  /** `_build_params`: starts from `{}` and adds each ingredient that passes
      its test. */
  method BuildParams(fields: Value, offset: Value, limit: Value, raiseException: Value)
    returns (params: map<string, Value>)
    ensures params == TruthyParams(fields, offset, limit, raiseException)
  {
    params := map[];
    if Truthy(fields) {
      params := params["fields" := fields];
    }
    assert params == AddIf(map[], Truthy(fields), "fields", fields);
    ghost var m1 := params;
    if Truthy(offset) {
      params := params["offset" := offset];
    }
    assert params == AddIf(m1, Truthy(offset), "offset", offset);
    ghost var m2 := params;
    if Truthy(limit) {
      params := params["limit" := limit];
    }
    assert params == AddIf(m2, Truthy(limit), "limit", limit);
    ghost var m3 := params;
    if raiseException != VNone {
      params := params["raise_exception" := raiseException];
    }
    assert params == AddIf(m3, raiseException != VNone, "raise_exception", raiseException);
  }

  /** Truth tests drop strictly more than `None` elision: whatever
      `_build_params` keeps, the current builder keeps with the same value,
      and a key kept only by the current builder is one whose value is set
      but falsy (`0`, `[]`, `False` is never among them). */
  lemma TruthinessVersusNoneElision(fields: Value, offset: Value, limit: Value, raiseException: Value)
    ensures var t := TruthyParams(fields, offset, limit, raiseException);
            var n := P.Kwargs(fields, offset, limit, raiseException, None);
            && t.Keys <= n.Keys
            && (forall k :: k in t ==> t[k] == n[k])
            && (forall k :: k in n && k !in t ==> k != "raise_exception" && !Truthy(n[k]))
  {
    var t := TruthyParams(fields, offset, limit, raiseException);
    var n := P.Kwargs(fields, offset, limit, raiseException, None);
    forall k | k in t
      ensures k in n && t[k] == n[k]
    {
      assert k in P.NamedKeys;
      P.NamedKwargKept(k, fields, offset, limit, raiseException, None);
    }
    forall k | k in n && k !in t
      ensures k != "raise_exception" && !Truthy(n[k])
    {
      P.KwargsShape(fields, offset, limit, raiseException, None);
      assert k in P.NamedKeys;
      P.NamedKwargKept(k, fields, offset, limit, raiseException, None);
    }
  }

  /** The pagination-zero gap: `offset=0` and `limit=0` are dropped here,
      while the current builder sends them. */
  lemma ZeroPaginationDropped()
    ensures TruthyParams(VNone, VInt(0), VInt(0), VNone) == map[]
    ensures P.Kwargs(VNone, VInt(0), VInt(0), VNone, None) == map["offset" := VInt(0), "limit" := VInt(0)]
  {
    assert TruthyParams(VNone, VInt(0), VInt(0), VNone).Keys == {};
    assert P.Kwargs(VNone, VInt(0), VInt(0), VNone, None).Keys == {"offset", "limit"};
  }

  /** An empty field list is dropped while `raise_exception=False` is kept. */
  lemma EmptyFieldsDroppedFalseKept()
    ensures TruthyParams(VList([]), VNone, VNone, VBool(false)) == map["raise_exception" := VBool(false)]
  {
    assert TruthyParams(VList([]), VNone, VNone, VBool(false)).Keys == {"raise_exception"};
  }

  /** Called without arguments, `_build_params` returns `{}`. */
  lemma NoArgumentsNoParams()
    ensures TruthyParams(VNone, VNone, VNone, VNone) == map[]
  {
    assert TruthyParams(VNone, VNone, VNone, VNone).Keys == {};
  }

  // ----- the payloads of the operations that build them inline -----

  /** `check_access_rights(model, right)`: data `[right]`, params
      `{"raise_exception": False}`. */
  function CheckAccessRightsCall(model: string, right: Value): (c: Call)
    ensures c.methodName == "check_access_rights" && c.model == model
    ensures c.data == [right]
    ensures c.params == map["raise_exception" := VBool(false)]
  {
    var c := Call(model, "check_access_rights", BuildData(right, VNone),
                  TruthyParams(VNone, VNone, VNone, VBool(false)));
    assert c.params.Keys == {"raise_exception"};
    c
  }

  /** `search_count(model, data)`: data `[data]`, params `{}`. */
  function SearchCountCall(model: string, criteria: Value): (c: Call)
    ensures c.methodName == "search_count" && c.model == model
    ensures c.data == [criteria] && c.params == map[]
  {
    var c := Call(model, "search_count", BuildData(criteria, VNone), TruthyParams(VNone, VNone, VNone, VNone));
    assert c.params.Keys == {};
    c
  }

  /** `_write_single_record(model, record_id, changes_data)`: data
      `[record_id, changes]` when the changes are non-empty, `[record_id]`
      otherwise; params fall back to `_request`'s default `{}`. */
  function WriteSingleRecordCall(model: string, recordId: Value, changes: map<string, Value>): (c: Call)
    ensures c.methodName == "write" && c.model == model && c.params == map[]
    ensures |changes| > 0 ==> c.data == [recordId, VDict(changes)]
    ensures |changes| == 0 ==> c.data == [recordId]
  {
    Call(model, "write", BuildData(recordId, VDict(changes)), map[])
  }

  // ----- the model-action table -----

  /** `_actions`: per model, the short action names and the model methods
      they trigger. */
  const Actions: map<string, map<string, string>> :=
    map["sale.order" := map["confirm" := "action_confirm"],
        "account.move" := map["update_payments" := "l10n_mx_edi_cfdi_invoice_try_update_payments"]]

  /** The call an action triggers: `_request(model, actions[method],
      [[record_id]])`, or the `KeyError` of an unknown action. */
  function ActionCall(model: string, action: string, recordId: int): (r: Result<Call, PyException>)
    requires model in Actions
    ensures r.Success? <==> action in Actions[model]
    ensures r.Success? ==> r.value == Call(model, Actions[model][action], [VList([VInt(recordId)])], map[])
    ensures r.Failure? ==> r.error == KeyError(action)
  {
    if action in Actions[model] then Success(Call(model, Actions[model][action], [VList([VInt(recordId)])], map[]))
    else Failure(KeyError(action))
  }

  /** What an action method did: the call it handed to the transport, if it
      got that far, and the exception it let escape, if any. */
  datatype ExecOutcome = ExecOutcome(sent: Option<Call>, raised: Option<PyException>)

  /** `sale_order_exec`: a lookup error or a transport error reaches the
      caller; on success the method returns `None`. */
  function SaleOrderExec(action: string, recordId: int, transport: Call -> Option<PyException>): (o: ExecOutcome)
    ensures action !in Actions["sale.order"] ==> o == ExecOutcome(None, Some(KeyError(action)))
    ensures action in Actions["sale.order"] ==>
              && o.sent == Some(Call("sale.order", Actions["sale.order"][action], [VList([VInt(recordId)])], map[]))
              && o.raised == transport(o.sent.value)
  {
    match ActionCall("sale.order", action, recordId)
    case Failure(e) => ExecOutcome(None, Some(e))
    case Success(c) => ExecOutcome(Some(c), transport(c))
  }

  /** `account_move_exec`: the same call inside a bare `try/except: pass`,
      so no error, from the lookup or the transport, ever escapes. */
  function AccountMoveExec(action: string, recordId: int, transport: Call -> Option<PyException>): (o: ExecOutcome)
    ensures o.raised == None
    ensures o.sent.Some? <==> action in Actions["account.move"]
    ensures action in Actions["account.move"] ==>
              o.sent == Some(Call("account.move", Actions["account.move"][action], [VList([VInt(recordId)])], map[]))
  {
    match ActionCall("account.move", action, recordId)
    case Failure(_) => ExecOutcome(None, None)
    case Success(c) => ExecOutcome(Some(c), None)
  }

  /** The two actions of the table, end to end. */
  lemma ActionTableEntries(recordId: int)
    ensures ActionCall("sale.order", "confirm", recordId)
         == Success(Call("sale.order", "action_confirm", [VList([VInt(recordId)])], map[]))
    ensures ActionCall("account.move", "update_payments", recordId)
         == Success(Call("account.move", "l10n_mx_edi_cfdi_invoice_try_update_payments", [VList([VInt(recordId)])], map[]))
  {
  }
}
