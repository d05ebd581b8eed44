# odoo_api_manager: the request-shaping and result-reshaping core

This project models, in Dafny, the layer of `odoo_api_manager` that sits
between a caller and Odoo's `execute_kw` remote call.

Outgoing calls:
- The parameter builder `Params` turns optional call ingredients into the
  positional `args` list and the keyword `kwargs` map. Two generations are
  modelled: the current one, which elides only `None` and merges an extra
  keyword map, and the first one.
- The earlier clients use `_build_data` and `_build_params` instead. These
  test truthiness, so they drop `0`, `[]` and `{}` as well as `None`.
- Each operation of the current client (`check_access_rights`, `create`,
  `search`, `read`, `search_read`, `search_count`, `write`, `unlink`,
  `execute`, `model_fields`) is modelled by the invocation it hands to
  `_request`, together with the `execute_kw` tuple that `_request` builds.

Incoming results:
- `_build_output` chooses between the raw response and a DataFrame.
- `get_value` and `get_values` unpack single records.
- `execute` refuses wizard responses.

Many-to-one destructuring:
- A column whose name ends in `_id` is a reference column, with cells like
  `[id, name]`.
- The current extension splits each such column into id and/or name columns
  by mode (`pair`, `id_only`, `name_only`).
- `dataset` falls back to an empty skeleton.
- The older `get_dataset` builds its own column order.

The rest of the core:
- the search-criteria structure (prefix `&`/`|` tokens and triplets) and
  the criteria `model_fields` builds;
- database selection from the `alt_db` argument, in the `Credentials`
  object and in the older environment reader `_Env`;
- the timestamp reader `_to_datetime`;
- the action table of the older clients.

Modules:
- `Wrappers`: `Option` and `Result`.
- `PyValues`: Python values, truthiness and the exceptions raised.
- `Dispatch`: the session and the `execute_kw` tuple.
- `Params`: the current parameter builder.
- `ParamsLegacy`: its first generation.
- `LegacyClient`: the payload helpers and action table of the earlier clients.
- `Criteria`: the criteria structure.
- `Client`: the current client.
- `Text`: the string operations used to rename columns.
- `Many2one`: the destructuring, `dataset`, and the older `get_dataset` order.
- `Credentials`: database selection.
- `LegacyEnv`: the older environment reader.
- `DateText`: `_to_datetime`.

Code that changes state in place is modelled as classes with `modifies`
clauses:
- the builder objects;
- the DataFrame being destructured;
- the credentials and environment objects;
- the client's fields.

Each of these methods is proved against a specification function, and the
properties the source promises are proved as lemmas about those functions.

## Model

| member | source | states |
|---|---|---|
| Dispatch.WireOf | src/odoo_api_manager/_main.py:1490-1505 | the `execute_kw` tuple carries the session's database, user id and token, then the model, method, args and kwargs unchanged |
| Params.DropNone | src/odoo_api_manager/_resources/_params.py:54-58 | the filtered list is no longer than the input, holds no `None`, and keeps every non-`None` input value |
| Params.Present | src/odoo_api_manager/_resources/_params.py:54-58 | an ingredient contributes one entry exactly when it is not `None`, and that entry is the ingredient |
| Params.ExtraValue | src/odoo_api_manager/_resources/_params.py:25-37 | the template's `kwargs` slot is `None` exactly when no extra map is given |
| Params.Template | src/odoo_api_manager/_resources/_params.py:32-38 | the keyword template has exactly the four named keys plus `kwargs` |
| Params.DropNoneValues | src/odoo_api_manager/_resources/_params.py:80-84 | a key survives exactly when its value is not `None`, with its value unchanged |
| Params.Params.constructor | src/odoo_api_manager/_resources/_params.py:14-42 | construction never fails; `args` is the canonical list without `None` and `kwargs` the merged, filtered map |
| Params.Params.BuildArgs | src/odoo_api_manager/_resources/_params.py:44-58 | `args` becomes its `None`-free filtering; `kwargs` is unchanged |
| Params.Params.BuildKwargs | src/odoo_api_manager/_resources/_params.py:60-84 | the loop copies every extra entry over the template, deletes `kwargs`, then drops `None` values; `args` is unchanged |
| Params.CanonicalArgsOrder | src/odoo_api_manager/_resources/_params.py:29-58 | the present ingredients appear in the order record ids, criteria, record data, right type, whichever are absent |
| Params.FalsyArgsSurvive | src/odoo_api_manager/_resources/_params.py:54-58 | at most four args; every non-`None` ingredient, however falsy, is sent; record ids come first when given |
| Params.KwargsShape | src/odoo_api_manager/_resources/_params.py:32-84 | the result never has the key `kwargs`, never a `None` value, and its keys come from the named four and the extra map |
| Params.NamedKwargKept | src/odoo_api_manager/_resources/_params.py:32-84 | a named ingredient not overridden is sent exactly when it is not `None`, with the caller's value (`0` and `False` included) |
| Params.ExtraEntryWins | src/odoo_api_manager/_resources/_params.py:69-84 | an extra entry overwrites a named one of the same key, and an extra entry set to `None` is dropped (merge before filter) |
| Params.ZeroAndFalseKept | src/odoo_api_manager/_resources/_params.py:74-84 | the falsy `offset=0` and `raise_exception=False` are sent; the `None` limit is not |
| Params.ExtraOverridesLimit | src/odoo_api_manager/_resources/_params.py:74-84 | an extra `{'limit': 5}` beats `limit=10` |
| Params.AllNoneIsEmpty | src/odoo_api_manager/_resources/_params.py:14-42 | with every ingredient `None`, `args == []` and `kwargs == {}` |
| ParamsLegacy.Kwargs | odoo_api_manager/_resources/_params.py:30-71 | keys are among the four named ones; each is present exactly when its input is not `None`, with that value |
| ParamsLegacy.Params.constructor | odoo_api_manager/_resources/_params.py:13-39 | `args` is the canonical list without `None`, and `kwargs` the four named ingredients without `None` |
| ParamsLegacy.Params.BuildArgs | odoo_api_manager/_resources/_params.py:41-55 | `args` becomes its `None`-free filtering; `kwargs` unchanged |
| ParamsLegacy.Params.BuildKwargs | odoo_api_manager/_resources/_params.py:57-71 | `kwargs` keeps exactly its non-`None` entries; `args` unchanged |
| ParamsLegacy.SameAsCurrentWithoutExtra | odoo_api_manager/_resources/_params.py:30-71 | without an extra map the current builder produces exactly what the first generation does |
| ParamsLegacy.Bounds | odoo_api_manager/_resources/_params.py:27-71 | at most four args and four kwargs; all-`None` inputs give `{}` |
| LegacyClient.Request | odoo_api_manager/odoo_api_manager.py:756-779 | `_request` sends the session followed by the call's model, method, data and params |
| LegacyClient.BuildData | odoo_api_manager/odoo_api_manager.py:782-791 | `[data, data_args]` exactly when `data_args` is truthy, `[data]` otherwise |
| LegacyClient.TruthyParams | odoo_api_manager/odoo_api_manager.py:795-825 | `fields`, `offset` and `limit` are present exactly when truthy, `raise_exception` exactly when not `None`, each with its value |
| LegacyClient.BuildParams | odoo_api_manager/odoo_api_manager.py:808-825 | the step-by-step filling of the dict yields `TruthyParams` |
| LegacyClient.TruthinessVersusNoneElision | odoo_api_manager/_odoo_api_manager.py:786-802 | every entry `_build_params` keeps, the current builder keeps with the same value; what only the current builder keeps is a falsy `fields`, `offset` or `limit` |
| LegacyClient.ZeroPaginationDropped | odoo_api_manager/odoo_api_manager.py:815-819 | `offset=0, limit=0` give `{}` here but both entries in the current builder |
| LegacyClient.EmptyFieldsDroppedFalseKept | odoo_api_manager/odoo_api_manager.py:812-822 | an empty field list is dropped while `raise_exception=False` is kept |
| LegacyClient.NoArgumentsNoParams | odoo_api_manager/odoo_api_manager.py:803-825 | called with no arguments, `_build_params` returns `{}` |
| LegacyClient.CheckAccessRightsCall | odoo_api_manager/odoo_api_manager.py:187-196 | data `[right]`, params `{'raise_exception': False}` |
| LegacyClient.SearchCountCall | odoo_api_manager/odoo_api_manager.py:713-720 | data `[criteria]`, params `{}` |
| LegacyClient.WriteSingleRecordCall | odoo_api_manager/odoo_api_manager.py:730-737 | data `[record_id, changes]` for non-empty changes, `[record_id]` for empty ones; params default `{}` |
| LegacyClient.ActionCall | odoo_api_manager/_odoo_api_manager.py:1098-1117 | the call sends `actions[method]` with args `[[record_id]]`, or raises `KeyError` for an unknown action |
| LegacyClient.SaleOrderExec | odoo_api_manager/_extensions.py:316-318 | a known action sends `sale.order`, the action's method name and `[[record_id]]`, and the transport's error propagates; an unknown action raises `KeyError` and sends nothing |
| LegacyClient.AccountMoveExec | odoo_api_manager/_extensions.py:320-325 | never raises; a call is sent exactly when the action is known, and it is `account.move`, the action's method name and `[[record_id]]` |
| LegacyClient.ActionTableEntries | odoo_api_manager/_odoo_api_manager.py:1098-1105 | `confirm` maps to `action_confirm` and `update_payments` to `l10n_mx_edi_cfdi_invoice_try_update_payments` |
| Criteria.ParseLogic | odoo_api_manager/_typing/_criteria_structure.py:5 | a logic token is exactly the and-symbol `&` or the or-symbol (a vertical bar) |
| Criteria.ParseComp | odoo_api_manager/_typing/_criteria_structure.py:7-18 | a comparison operator is exactly one of the ten symbols |
| Criteria.OperatorVocabulary | odoo_api_manager/_typing/_criteria_structure.py:5-18 | every logic and comparison operator's symbol reads back as that operator, and a string is a comparison symbol exactly when some comparison operator writes it |
| Criteria.Flatten | odoo_api_manager/_typing/_criteria_structure.py:26 | a tree serialises to a non-empty flat token list |
| Criteria.Parse | src/odoo_api_manager/_main.py:684-706 | a parsed prefix expression is a proper prefix of the list, and the tokens are its serialisation followed by the rest |
| Criteria.ParseFlatten | src/odoo_api_manager/_main.py:684-706 | reading a serialised tree gives back the tree and the rest (round trip) |
| Criteria.FlattenInjective | odoo_api_manager/_typing/_criteria_structure.py:26 | two different trees never share a flat list, and every serialised tree is well formed |
| Criteria.DocumentedExample | src/odoo_api_manager/_main.py:692-706 | the documented list (or-symbol, `&`, c1, c2, c3) reads as `(c1 and c2) or c3` |
| Criteria.ToValue | odoo_api_manager/_typing/_criteria_structure.py:20-26 | the criteria is sent as a flat Python list, one element per token |
| Criteria.FieldCatalogCriteria | src/odoo_api_manager/_main.py:1364-1371 | with a non-empty field list the criteria reads as `model_id = model and name in fields`, otherwise as `model_id = model` alone |
| Criteria.ModelFieldsCriteria | odoo_api_manager/_extensions/_data_methods.py:273-281 | the list built by `insert(0, '&')` and `append` equals the specification and is well formed |
| Criteria.LegacyFieldCatalogCriteria | odoo_api_manager/_extensions.py:234-238 | the older criteria is always the single model triplet |
| Client.Manager.constructor | src/odoo_api_manager/_main.py:496-1478 | the session holds the credentials and user id; the default output is stored; the token is shown only as asterisks of its length |
| Client.Manager.Send | src/odoo_api_manager/_main.py:1480-1505 | a call goes out under the client's own session with the caller's model and method, and fails before sending exactly when `kwargs` is left out |
| Client.RequestAsWritten | src/odoo_api_manager/_main.py:1480-1505 | fails with `TypeError` exactly when no `kwargs` is passed; otherwise the tuple carries args and kwargs |
| Client.Request | src/odoo_api_manager/_main.py:1480-1505 | the corrected dispatcher always yields the tuple, with `{}` for a missing `kwargs` |
| Client.RequestAgrees | src/odoo_api_manager/_main.py:1480-1505 | both dispatchers agree whenever `kwargs` is passed |
| Client.MissingKwargsFinding | src/odoo_api_manager/_main.py:594-1251 | create, search_count, write and unlink always fail as written and reach the wire when corrected |
| Client.ConvertToList | src/odoo_api_manager/_main.py:1427-1436 | a list is returned unchanged, and anything else becomes a singleton list |
| Client.ConvertToListIdempotent | src/odoo_api_manager/_main.py:1427-1436 | converting twice is converting once |
| Client.Paging | src/odoo_api_manager/_resources/_params.py:32-84 | fields, offset and limit are present exactly when given, each with the caller's value |
| Client.CheckAccessRights | src/odoo_api_manager/_main.py:523-557 | args `[right_type]` when given; kwargs always `{'raise_exception': ...}`, `False` by default |
| Client.Create | src/odoo_api_manager/_main.py:559-600 | args `[records_data as list]`, no kwargs passed |
| Client.Search | src/odoo_api_manager/_main.py:602-727 | args `[criteria]` even when empty; offset and limit sent exactly when given, `0` included |
| Client.Read | src/odoo_api_manager/_main.py:807-892 | args `[ids as list]`; fields sent only when given |
| Client.SearchRead | src/odoo_api_manager/_main.py:894-1073 | args `[criteria]`; fields, offset and limit sent exactly when given |
| Client.SearchCount | src/odoo_api_manager/_main.py:1162-1173 | args `[criteria]`, no kwargs passed |
| Client.Write | src/odoo_api_manager/_main.py:1200-1215 | args `[ids as list, record_data]`, no kwargs passed |
| Client.Unlink | src/odoo_api_manager/_main.py:1242-1253 | args `[ids as list]`, no kwargs passed |
| Client.Execute | src/odoo_api_manager/_main.py:1275-1290 | args `[ids as list]`; the caller's kwargs map is forwarded as is |
| Client.ExecuteForwardsNone | src/odoo_api_manager/_main.py:1279-1290 | a `None` entry of the caller's map reaches the wire although the builder would have dropped it |
| Client.ExecuteResult | src/odoo_api_manager/_main.py:1292-1303 | `NotImplementedError` exactly when the response is a dict; any other response is returned |
| Client.ModelFields | src/odoo_api_manager/_main.py:1364-1378 | a `search_read` on `ir.model.fields` with the field-catalog criteria, asking for the attributes |
| Client.BuildOutput | src/odoo_api_manager/_main.py:1399-1425 | a DataFrame exactly when `output` is `'dataframe'`, or falsy with default `'dataframe'`; otherwise the input unchanged; content is never altered |
| Client.BuildOutputIdempotent | src/odoo_api_manager/_main.py:1399-1425 | formatting twice with the same request is formatting once |
| Client.ModelFieldsOutputAsWritten | src/odoo_api_manager/_main.py:1374-1383 | as written, a DataFrame whenever either the request or the default asks for one |
| Client.ModelFieldsOutput | src/odoo_api_manager/_main.py:1374-1383 | corrected, a DataFrame exactly when the request (or, if none, the default) asks for one |
| Client.ModelFieldsDictIgnored | src/odoo_api_manager/_main.py:1374-1383 | default `'dataframe'` with `output='dict'` still gives a DataFrame as written, and the records when corrected |
| Client.Lookup | src/odoo_api_manager/_main.py:798-805 | the record's values for the fields in order, or `KeyError` of the first missing field |
| Client.GetValue | src/odoo_api_manager/_main.py:729-763 | no record gives `None`; one record gives its value or `KeyError`; several fail to unpack with `ValueError` |
| Client.GetValues | src/odoo_api_manager/_main.py:765-805 | the same unpacking; one record with every field gives the tuple of its values in the order of `fields`, one record missing a field gives the `KeyError` of the first missing field |
| Client.GetValueIsOneFieldGetValues | src/odoo_api_manager/_main.py:753-805 | `get_value` is `get_values` of one field, unwrapped from its 1-tuple |
| Client.DictReadIsRaw | src/odoo_api_manager/_main.py:1399-1425 | a read with `output='dict'` is never turned into a DataFrame |
| Text.FindIdFrom | odoo_api_manager/_odoo_api_manager.py:1051 | `find` gives the first occurrence at or after the start, or -1 when there is none |
| Text.FindId | odoo_api_manager/_odoo_api_manager.py:1051 | -1 exactly when `_id` does not occur; otherwise the first occurrence |
| Text.SliceTo | odoo_api_manager/_odoo_api_manager.py:1052 | Python's `s[:end]`, including negative and out-of-range bounds |
| Text.IdToNameHasNoId | odoo_api_manager/_extensions/_data_methods.py:392-405 | the replacement leaves no `_id` behind, so a name column is never itself a reference column |
| Text.IdToNameLonger | odoo_api_manager/_extensions/_data_methods.py:392-405 | the replacement never shortens, and lengthens when there is an occurrence |
| Text.NameColumnIsNew | odoo_api_manager/_extensions/_data_methods.py:385-392 | the name column of a reference column differs from it and is not a reference column |
| Text.IdToNameAfter | odoo_api_manager/_extensions/_data_methods.py:392-405 | the first `_id` of `base + "_id" + rest`, for a `base` without one, is the one at the join; it becomes `_name` and the replacement goes on in `rest` |
| Text.IdToNameOfIdColumn | odoo_api_manager/_extensions/_data_methods.py:392-405 | `base + "_id"` becomes `base + "_name"` when `base` has no `_id` |
| Text.ReplaceEveryOccurrence | odoo_api_manager/_extensions/_data_methods.py:392-405 | for any `a` and `b` without `_id`, `a + "_id" + b + "_id"` becomes `a + "_name" + b + "_name"`: every occurrence is replaced |
| Text.ReplaceTrailingId | odoo_api_manager/_extensions/_data_methods.py:392-405 | `partner_id` becomes `partner_name` |
| Many2one.GetMany2oneId | odoo_api_manager/_extensions/_data_methods.py:658-663 | element 0 of a list, `IndexError` for an empty list, any other value unchanged |
| Many2one.GetMany2oneName | odoo_api_manager/_extensions/_data_methods.py:664-669 | element 1 of a list, `IndexError` for a shorter list, any other value unchanged |
| Many2one.PairSplits | odoo_api_manager/_extensions/_data_methods.py:659-669 | a pair splits into id and name; `False` stays `False` in both |
| Many2one.ExtractIdFromList | odoo_api_manager/_odoo_api_manager.py:1055-1059 | a falsy sample is returned as is; a truthy one is indexed at 0, failing for numbers and dicts |
| Many2one.ExtractVersusGetId | odoo_api_manager/_extensions.py:261-265 | agrees with `get_many2one_id` on pairs and `False`, differs on `[]` and on numbers |
| Many2one.ApplyAll | odoo_api_manager/_extensions/_data_methods.py:392-396 | `apply` succeeds exactly when every cell does, giving the cell-wise results |
| Many2one.Frame.constructor | odoo_api_manager/_extensions/_data_methods.py:190 | a frame with distinct columns, one cell list per column, all of the row count |
| Many2one.Frame.Assign | odoo_api_manager/_extensions/_data_methods.py:392-396 | `data[name] = values` overwrites in place or appends a new column last, and keeps the column names unique |
| Many2one.NameStep | odoo_api_manager/_extensions/_data_methods.py:390-392 | the name half writes a column and leaves the order alone |
| Many2one.IdStep | odoo_api_manager/_extensions/_data_methods.py:395-396 | the id half rewrites a column and leaves the order alone |
| Many2one.Step | odoo_api_manager/_extensions/_data_methods.py:383-409 | one iteration appends the column's contribution to the order and loses no column |
| Many2one.AssignName | odoo_api_manager/_extensions/_data_methods.py:390-392 | the frame after the name half is the `NameStep` state, or unchanged with its error |
| Many2one.AssignId | odoo_api_manager/_extensions/_data_methods.py:395-396 | the frame after the id half is the `IdStep` state, or unchanged with its error |
| Many2one.DestructureColumn | odoo_api_manager/_extensions/_data_methods.py:383-409 | one iteration on the frame matches `Step` |
| Many2one.DestructureReference | odoo_api_manager/_extensions/_data_methods.py:385-405 | one iteration over a reference column: the name column, then the id column, then the order entries, matching `Step` or its error |
| Many2one.DestructureNext | odoo_api_manager/_extensions/_data_methods.py:383-409 | one iteration keeps the loop invariant: what is left of `Process` from the new frame equals what was left before, and an error is the error `Process` gives |
| Many2one.DestructureColumns | odoo_api_manager/_extensions/_data_methods.py:373-409 | the loop over the column snapshot matches `Process` |
| Many2one.Destructure | odoo_api_manager/_extensions/_data_methods.py:330-412 | the method's result is `data[columns_order]` of the specification, or the first error; on success the frame holds the loop's final columns and cells |
| Many2one.ProcessAdvance | odoo_api_manager/_extensions/_data_methods.py:383 | the loop invariant carries one column further |
| Many2one.ProcessOrder | odoo_api_manager/_extensions/_data_methods.py:383-409 | a successful run's order depends on the column names and the mode only |
| Many2one.IdOnlyOrder | odoo_api_manager/_extensions/_data_methods.py:359-402 | `id_only` keeps every column in place |
| Many2one.NameOnlyOrder | odoo_api_manager/_extensions/_data_methods.py:365-405 | `name_only` puts each name column in place of its reference column |
| Many2one.UnknownModeOrder | odoo_api_manager/_extensions/_data_methods.py:376-405 | any other mode drops every reference column and keeps the rest in order |
| Many2one.PairOrder | odoo_api_manager/_extensions/_data_methods.py:353-405 | `pair` keeps the reference columns in order and adds one column per reference |
| Many2one.DocumentedOrder | odoo_api_manager/_extensions/_data_methods.py:338-369 | the documented example's column order in modes `"pair"`, `"id_only"` and `"name_only"` |
| Many2one.DocumentedPairsCall | odoo_api_manager/_extensions/_data_methods.py:353-357 | the docstring's own call with `"pairs"` names no known mode, so only `id` is kept |
| Many2one.ApplyShaped | odoo_api_manager/_extensions/_data_methods.py:659-669 | on well-shaped cells both transformations succeed, giving the ids and the names |
| Many2one.ProcessFrame | odoo_api_manager/_extensions/_data_methods.py:383-409 | a column the loop never writes keeps its cells |
| Many2one.StepValues | odoo_api_manager/_extensions/_data_methods.py:390-396 | one iteration over well-shaped cells succeeds with the expected cells |
| Many2one.ProcessValues | odoo_api_manager/_extensions/_data_methods.py:383-409 | on distinct, clash-free, well-shaped columns the loop succeeds; reference columns hold their ids (if requested) and their name columns the names; others keep their cells |
| Many2one.PairModeValues | odoo_api_manager/_extensions/_data_methods.py:338-405 | in pair mode each `X_id` holds the ids and `X_name` the labels; other columns keep their cells |
| Many2one.ExpectedOrderHas | odoo_api_manager/_extensions/_data_methods.py:401-409 | every non-reference column, and each requested half of a reference column, appears in the order |
| Many2one.Dedup | odoo_api_manager/_extensions/_data_methods.py:187 | the names once each, exactly those of both lists, with the seed names first in their order |
| Many2one.DedupDistinct | odoo_api_manager/_extensions/_data_methods.py:187 | names that are already distinct come out unchanged, in their order |
| Many2one.EmptyTable | odoo_api_manager/_extensions/_data_methods.py:187 | the skeleton has `id` first, every requested field once and nothing else, each with no cells; for distinct fields without `id` the columns are exactly `id` then the fields in order |
| Many2one.DatasetAsWritten | odoo_api_manager/_extensions/_data_methods.py:184-198 | the destructured rows when there are rows and the mode is not `raw`, the empty skeleton otherwise |
| Many2one.Dataset | odoo_api_manager/_extensions/_data_methods.py:184-198 | corrected: `raw` with rows returns the rows unsplit; otherwise as written |
| Many2one.RawModeDropsRows | odoo_api_manager/_extensions/_data_methods.py:193-198 | as written, `raw` turns one fetched record into the empty skeleton |
| Many2one.RenameColumnRef | odoo_api_manager/_odoo_api_manager.py:1050-1053 | the prefix before the first `_id`, plus `_id` and `_name`; without `_id`, the last character is dropped |
| Many2one.RenameAgreesWithReplace | odoo_api_manager/_extensions.py:256-259 | on `base + "_id"` it agrees with the newer `replace`; `partner` becomes `partne_id`, `partne_name` |
| Many2one.LegacyColumns | odoo_api_manager/_odoo_api_manager.py:975-1005 | the loop yields `id` then each field, expanded into its two renamed columns when many-to-one and not ids only |
| Many2one.LegacyOrderShape | odoo_api_manager/_extensions.py:177-208 | with ids only the order is the fields as given; otherwise each many-to-one field counts twice |
| Credentials.CustomVariableInjective | odoo_api_manager/_resources/_credentials.py:62 | different suffixes select different variables, none the alternate-database variable itself |
| Credentials.Database | odoo_api_manager/_resources/_credentials.py:23-64 | `None` or `False` give DB; `True` gives ALT_DB or raises `DatabaseNotDefinedError` when it is unset; other values read `ALT_DB_<suffix>` |
| Credentials.OnlyMissingAltDatabaseRaises | odoo_api_manager/_resources/_credentials.py:40-44 | when the variable helper never raises, construction fails exactly for `True` without ALT_DB |
| Credentials.FalseIsDefault | odoo_api_manager/_resources/_credentials.py:28-50 | `False` and no argument select the same database, without failing |
| Credentials.Credentials.constructor | odoo_api_manager/_resources/_credentials.py:18-21 | username, token and url copied from the configuration |
| Credentials.Credentials.LoadCustomDatabase | odoo_api_manager/_resources/_credentials.py:56-64 | db becomes the value of the suffix's variable, or the helper's error propagates |
| Credentials.Credentials.LoadAlternativeDatabase | odoo_api_manager/_resources/_credentials.py:32-54 | db becomes the selected database, or the error is raised; other fields unchanged |
| Credentials.NewCredentials | odoo_api_manager/_resources/_credentials.py:13-30 | a new object with the copied fields and the selected database, or the error of the selection |
| LegacyEnv.Get | odoo_api_manager/_env.py:12-15 | a missing variable yields `None` and never raises |
| LegacyEnv.DatabaseVariableChoices | odoo_api_manager/_env.py:8-25 | `True` selects `ODOO_API_ALT_DB`, `False`, `None` and other values `ODOO_API_DB`; a string names the variable itself |
| LegacyEnv.Env.constructor | odoo_api_manager/_env.py:11-25 | every field is the environment's value or `None`, the database from the selected variable |
| LegacyEnv.FlagsAcrossGenerations | odoo_api_manager/_resources/_credentials.py:23-50 | both readers agree on no argument, `False` and a configured `True`; for `True` without ALT_DB the older gives `None`, the newer raises |
| DateText.Split | odoo_api_manager/_odoo_api_manager.py:1127-1129 | `str.split` gives at least one piece, none containing the separator |
| DateText.JoinSplit | odoo_api_manager/_odoo_api_manager.py:1127-1129 | joining the pieces gives back the string |
| DateText.ParseInt | odoo_api_manager/_odoo_api_manager.py:1128-1129 | `int()` accepts an optional sign then digits, with their value; otherwise `ValueError` |
| DateText.PaddedRoundTrip | odoo_api_manager/_odoo_api_manager.py:1128-1129 | `int()` reads a zero-padded number back |
| DateText.MakeDateTime | odoo_api_manager/_odoo_api_manager.py:1130 | the `datetime` constructor succeeds exactly on a valid calendar date and time, else `ValueError` |
| DateText.ParseInts | odoo_api_manager/_odoo_api_manager.py:1128-1129 | every piece converted in order, or `ValueError` |
| DateText.Unpack | odoo_api_manager/_odoo_api_manager.py:1127-1129 | unpacking succeeds exactly on the expected count, with Python's two messages otherwise |
| DateText.ToDatetime | odoo_api_manager/_odoo_api_manager.py:1126-1130 | a result is always a valid date-time read from exactly two space-separated parts; failures are `ValueError` |
| DateText.ToDatetimeOfPieces | odoo_api_manager/_extensions.py:334-338 | three numeric date pieces and three time pieces give the constructor's answer on them, in order |
| DateText.ToDatetimeShortTime | odoo_api_manager/_extensions.py:337 | fewer than three time pieces fail to unpack |
| DateText.ReadText | odoo_api_manager/_odoo_api_manager.py:1126-1130 | reading six written numbers gives the constructor's answer on those numbers |
| DateText.FormatRoundTrip | odoo_api_manager/_odoo_api_manager.py:1126-1130 | reading a formatted timestamp gives it back |
| DateText.RejectsIsoSeparator | odoo_api_manager/_odoo_api_manager.py:1127 | an ISO `T` separator fails to unpack |
| DateText.RejectsMissingSeconds | odoo_api_manager/_odoo_api_manager.py:1129 | a time without seconds fails to unpack |
| DateText.RejectsImpossibleDay | odoo_api_manager/_odoo_api_manager.py:1130 | the 30th of February is refused with `ValueError` |

## Left out

- Many2one.Dedup: where a name repeats, the contract says it is kept once but not that its first position is the one kept; the exact order is stated (by DedupDistinct and EmptyTable) only for names that are already distinct.
- Many2one.Destructure: after an error the frame's partly updated state is not stated; the only caller discards the frame.
- The XML-RPC transport (`ServerProxy`, `authenticate`, `execute_kw`) is not modelled. An operation is the invocation it hands to `_request`, and the tuple `_request` builds. The user id and every response are parameters.
- pandas is not modelled: DataFrame construction from records, dtypes, NaN, `pd.merge` and `drop_duplicates`. A table is an ordered column list plus per-column cells. `Client.BuildOutput` only records whether a DataFrame is built.
- The older `get_dataset`'s cell values (`_map_dataframe_ref`, merge) are not modelled; only its column order is. Its field-type lookup through a remote `model_fields` call is taken as a predicate.
- The non-separating branch of the older `get_dataset` is not modelled: it refers to an unbound `field` (a `NameError`).
- `to_local_date`, `local_time_difference_in_hours` and the date arithmetic behind them are not modelled.
- Not modelled: the extension registry, `FixMethods`/`_FixMethods`, the deprecation decorator, the literal catalogs and type aliases, `session_info` printing and `setup.py`.
- The environment helper `env.variable` and the configuration loader are not part of this model. The helper is a `Credentials.Lookup` parameter, and the configuration is a `Credentials.Config` value. `VARIABLE_NAME.ALT_DB` is a parameter `altDbName`.
- Credentials.Database: a non-bool `alt_db` is carried as the text its f-string renders to; Python's `str()` of arbitrary objects is not modelled.
- Credentials.Credentials.constructor: when selection raises, the model returns the error instead of a half-built object; the object's `db` before selection is `None`, where Python leaves the attribute unset.
- DateText.ParseInt: `int()`'s acceptance of surrounding whitespace, underscores between digits and non-ASCII digits is not modelled.
- Python dict insertion order is not modelled: keyword maps are Dafny maps, which the XML-RPC struct does not order either.
- Params.Params.constructor: the caller's extra map is a value, so aliasing cannot be expressed; that the caller's dict is left unmodified holds trivially here rather than being proved about a shared object.
- Many2one.ProcessValues: cell contents are stated only under the hypotheses that columns are distinct, no name column already exists (`NoClash`) and reference cells are non-lists or lists of two or more (`Shaped`); outside them the order and error behaviour are still specified by `Step`/`Process`.
- Many2one.PairModeValues: stated under the same hypotheses as `ProcessValues`.
- Floats are opaque (mantissa, exponent) values with no arithmetic.

## Findings

| source | as written | input that shows it | evidently intended | confidence | as-written member | corrected member |
|---|---|---|---|---|---|---|
| src/odoo_api_manager/_main.py:1480-1487 | `_request` requires `kwargs`, but `create`, `search_count`, `write` and `unlink` call it without | `create("res.partner", {...})` raises `TypeError` before anything is sent | `kwargs` defaults to `{}` as in the earlier clients | high, not executed | Client.RequestAsWritten | Client.Request |
| src/odoo_api_manager/_main.py:1374-1383 | `model_fields` calls `search_read` without `output`, so the default formatting happens first | client default `'dataframe'`, `model_fields(..., output='dict')` returns a DataFrame | `output` decides the result format | medium, not executed | Client.ModelFieldsOutputAsWritten | Client.ModelFieldsOutput |
| odoo_api_manager/_extensions/_data_methods.py:353-357 | the docstring's example calls `get= "pairs"` and shows `id, user_id, user_name` | `get="pairs"` on the documented two-column frame keeps only `id` | the mode `"pair"`, as the method's annotation `Literal["id_only", "name_only", "pair"]` says | high, not executed | Many2one.DocumentedPairsCall | Many2one.DocumentedOrder |
| odoo_api_manager/_extensions/_data_methods.py:193-198 | mode `"raw"` returns the empty skeleton | one fetched record with mode `"raw"` gives a table with no rows | `"raw"` returns the fetched rows without splitting | medium, not executed | Many2one.DatasetAsWritten | Many2one.Dataset |
