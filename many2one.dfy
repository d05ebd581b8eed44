/** Many-to-one destructuring: a column whose name ends in `_id` holds
    `[id, label]` pairs (or `False`), and is split into an id column and/or
    a name column according to the requested mode. A table is an ordered
    list of column names and a map from each name to its cells. */
module Many2one {
  import opened Wrappers
  import opened PyValues
  import opened Text

  predicate Distinct(xs: seq<string>) {
    forall i, j :: 0 <= i < j < |xs| ==> xs[i] != xs[j]
  }

  /** A column is a many-to-one reference purely by its name. */
  predicate IsRef(c: string) {
    EndsWith(c, "_id")
  }

  // ----- cell transformations -----

  /** `transformation.get_many2one_id`: element 0 of a list, any other value
      unchanged; an empty list raises `IndexError`. */
  function GetMany2oneId(v: Value): (r: Result<Value, PyException>)
    ensures !v.VList? ==> r == Success(v)
    ensures v.VList? ==> (r.Success? <==> |v.items| >= 1)
    ensures v.VList? && |v.items| >= 1 ==> r == Success(v.items[0])
    ensures r.Failure? ==> r.error == IndexError
  {
    if !v.VList? then Success(v)
    else if |v.items| >= 1 then Success(v.items[0])
    else Failure(IndexError)
  }

  /** `transformation.get_many2one_name`: element 1 of a list, any other
      value unchanged; a list shorter than two raises `IndexError`. */
  function GetMany2oneName(v: Value): (r: Result<Value, PyException>)
    ensures !v.VList? ==> r == Success(v)
    ensures v.VList? ==> (r.Success? <==> |v.items| >= 2)
    ensures v.VList? && |v.items| >= 2 ==> r == Success(v.items[1])
    ensures r.Failure? ==> r.error == IndexError
  {
    if !v.VList? then Success(v)
    else if |v.items| >= 2 then Success(v.items[1])
    else Failure(IndexError)
  }

  /** A reference pair splits into its two halves; `False` (no reference)
      stays `False` on both sides. */
  lemma PairSplits(id: Value, name: Value)
    ensures GetMany2oneId(VList([id, name])) == Success(id)
    ensures GetMany2oneName(VList([id, name])) == Success(name)
    ensures GetMany2oneId(VBool(false)) == Success(VBool(false))
    ensures GetMany2oneName(VBool(false)) == Success(VBool(false))
  {
  }

  /** `_extract_id_from_list`: a falsy sample is returned as is, a truthy
      one is indexed at 0 (its first element, or first character); indexing
      a number or `True` is a `TypeError`, a dict a `KeyError`. */
  function ExtractIdFromList(sample: Value): (r: Result<Value, PyException>)
    ensures !Truthy(sample) ==> r == Success(sample)
    ensures Truthy(sample) && sample.VList? ==> r == Success(sample.items[0])
    ensures Truthy(sample) && sample.VTuple? ==> r == Success(sample.elems[0])
    ensures Truthy(sample) && sample.VStr? ==> r == Success(VStr([sample.s[0]]))
    ensures Truthy(sample) && (sample.VInt? || sample.VFloat? || sample.VBool?) ==> r.Failure? && r.error.TypeError?
    ensures Truthy(sample) && sample.VDict? ==> r == Failure(KeyError("0"))
  {
    if !Truthy(sample) then Success(sample)
    else match sample
      case VList(items) => Success(items[0])
      case VTuple(elems) => Success(elems[0])
      case VStr(s) => Success(VStr([s[0]]))
      case VDict(_) => Failure(KeyError("0"))
      case _ => Failure(TypeError("object is not subscriptable"))
  }

  /** The older id extraction agrees with `get_many2one_id` on reference
      pairs and on `False`, but not on an empty list (returned, where the
      newer one raises) nor on a bare id (refused, where the newer one
      returns it). */
  lemma ExtractVersusGetId(v: Value)
    ensures (v.VList? && |v.items| >= 1) || v == VBool(false) ==> ExtractIdFromList(v) == GetMany2oneId(v)
    ensures ExtractIdFromList(VList([])) == Success(VList([])) && GetMany2oneId(VList([])) == Failure(IndexError)
    ensures ExtractIdFromList(VInt(7)).Failure? && GetMany2oneId(VInt(7)) == Success(VInt(7))
  {
  }

  /** `column.apply(get)`: the transformation of every cell, or the error of
      the first cell it fails on. */
  function ApplyAll(vals: seq<Value>, name: bool): (r: Result<seq<Value>, PyException>)
    ensures r.Success? <==> forall i :: 0 <= i < |vals| ==> Get(vals[i], name).Success?
    ensures r.Success? ==> |r.value| == |vals| && forall i :: 0 <= i < |vals| ==> r.value[i] == Get(vals[i], name).value
  {
    if vals == [] then Success([])
    else match Get(vals[0], name)
      case Failure(e) => Failure(e)
      case Success(x) =>
        match ApplyAll(vals[1..], name)
        case Failure(e) =>
          assert exists i :: 0 <= i < |vals[1..]| && Get(vals[1..][i], name).Failure?;
          Failure(e)
        case Success(xs) =>
          assert forall i :: 1 <= i < |vals| ==> vals[i] == vals[1..][i - 1];
          Success([x] + xs)
  }

  function Get(v: Value, name: bool): Result<Value, PyException> {
    if name then GetMany2oneName(v) else GetMany2oneId(v)
  }

  // ----- the table -----

  /** A table as `data[columns]` returns it: the columns in order (a name may
      repeat) and the cells of each. */
  datatype Table = Table(columns: seq<string>, cells: map<string, seq<Value>>)

  /** The DataFrame being destructured, changed in place. Its column names
      are unique when it is built, and `Assign` keeps them so. */
  class Frame {
    var columns: seq<string>
    var cells: map<string, seq<Value>>
    var rows: nat

    ghost predicate Valid()
      reads this
    {
      && (forall c :: c in columns <==> c in cells)
      && (forall c :: c in cells ==> |cells[c]| == rows)
    }

    constructor (columns: seq<string>, cells: map<string, seq<Value>>, rows: nat)
      requires Distinct(columns) && (forall c :: c in columns <==> c in cells)
      requires forall c :: c in cells ==> |cells[c]| == rows
      ensures Valid()
      ensures this.columns == columns && this.cells == cells && this.rows == rows
    {
      this.columns := columns;
      this.cells := cells;
      this.rows := rows;
    }

    /** `data[name] = values`: overwrites an existing column in place or
        appends a new one at the end. */
    method Assign(name: string, values: seq<Value>)
      requires Valid() && |values| == rows
      modifies this
      ensures Valid() && rows == old(rows)
      ensures cells == old(cells)[name := values]
      ensures columns == if name in old(columns) then old(columns) else old(columns) + [name]
      ensures Distinct(old(columns)) ==> Distinct(columns)
    {
      if name !in columns {
        columns := columns + [name];
      }
      cells := cells[name := values];
    }
  }

  // ----- the specification of the destructuring loop -----

  /** The loop's state: the frame's columns and cells, and the output order
      built so far. */
  datatype State = State(columns: seq<string>, cells: map<string, seq<Value>>, order: seq<string>)

  /** What `Frame.Assign` does, on a state. */
  function Put(st: State, name: string, values: seq<Value>): State {
    State(if name in st.columns then st.columns else st.columns + [name], st.cells[name := values], st.order)
  }

  /** The columns one snapshot column contributes to the output order. */
  function OrderOf(c: string, getName: bool, getId: bool): seq<string> {
    if IsRef(c) then (if getId then [c] else []) + (if getName then [IdToName(c)] else [])
    else [c]
  }

  /** The name half of an iteration: `data[name] = data[c].apply(get_name)`
      when names are requested. */
  function NameStep(st: State, c: string, getName: bool): (r: Result<State, PyException>)
    requires c in st.cells
    ensures r.Success? ==> r.value.order == st.order && st.cells.Keys <= r.value.cells.Keys
  {
    if !getName then Success(st)
    else match ApplyAll(st.cells[c], true)
      case Failure(e) => Failure(e)
      case Success(v) => Success(Put(st, IdToName(c), v))
  }

  /** The id half: `data[c] = data[c].apply(get_id)` when ids are requested. */
  function IdStep(st: State, c: string, getId: bool): (r: Result<State, PyException>)
    requires c in st.cells
    ensures r.Success? ==> r.value.order == st.order && st.cells.Keys <= r.value.cells.Keys
  {
    if !getId then Success(st)
    else match ApplyAll(st.cells[c], false)
      case Failure(e) => Failure(e)
      case Success(v) => Success(Put(st, c, v))
  }

  /** One iteration: for a reference column, the name column first, then
      the id column overwritten; then the order entries. */
  function Step(st: State, c: string, getName: bool, getId: bool): (r: Result<State, PyException>)
    ensures r.Success? ==> r.value.order == st.order + OrderOf(c, getName, getId)
    ensures r.Success? ==> st.cells.Keys <= r.value.cells.Keys
  {
    if c !in st.cells then Failure(KeyError(c))
    else if !IsRef(c) then Success(st.(order := st.order + [c]))
    else match NameStep(st, c, getName)
      case Failure(e) => Failure(e)
      case Success(s1) =>
        match IdStep(s1, c, getId)
        case Failure(e) => Failure(e)
        case Success(s2) => Success(s2.(order := s2.order + OrderOf(c, getName, getId)))
  }

  /** The loop over the column snapshot; the first error stops it. */
  function Process(cols: seq<string>, st: State, getName: bool, getId: bool): Result<State, PyException>
    decreases |cols|
  {
    if cols == [] then Success(st)
    else match Step(st, cols[0], getName, getId)
      case Failure(e) => Failure(e)
      case Success(s) => Process(cols[1..], s, getName, getId)
  }

  /** `data[columns_order]`. */
  function Select(cells: map<string, seq<Value>>, order: seq<string>): Table {
    Table(order, map c | c in order && c in cells :: cells[c])
  }

  /** The two mode flags. */
  function WantsName(get: string): bool { get == "pair" || get == "name_only" }
  function WantsId(get: string): bool { get == "pair" || get == "id_only" }

  /** `_destruture_many2one_columns(data, get)` on a table given by its
      columns and cells. */
  function Destructured(columns: seq<string>, cells: map<string, seq<Value>>, get: string): Result<Table, PyException> {
    match Process(columns, State(columns, cells, []), WantsName(get), WantsId(get))
    case Failure(e) => Failure(e)
    case Success(st) => Success(Select(st.cells, st.order))
  }

  /** The snapshot of `data` as a loop state. */
  function StateOf(data: Frame, order: seq<string>): State
    reads data
  {
    State(data.columns, data.cells, order)
  }

  /** The name half of one iteration, on the frame. */
  method AssignName(data: Frame, c: string, getName: bool, order: seq<string>) returns (err: Option<PyException>)
    requires data.Valid() && c in data.cells
    modifies data
    ensures data.Valid() && data.rows == old(data.rows)
    ensures |data.columns| >= |old(data.columns)| && data.columns[..|old(data.columns)|] == old(data.columns)
    ensures var s := NameStep(State(old(data.columns), old(data.cells), order), c, getName);
            && (err.Some? <==> s.Failure?)
            && (err.Some? ==> err.value == s.error)
            && (err.None? ==> s.value == StateOf(data, order))
  {
    err := None;
    if getName {
      var values := ApplyAll(data.cells[c], true);
      if values.Failure? {
        err := Some(values.error);
        return;
      }
      data.Assign(IdToName(c), values.value);
    }
  }

  /** The id half of one iteration, on the frame. */
  method AssignId(data: Frame, c: string, getId: bool, order: seq<string>) returns (err: Option<PyException>)
    requires data.Valid() && c in data.cells
    modifies data
    ensures data.Valid() && data.rows == old(data.rows)
    ensures |data.columns| >= |old(data.columns)| && data.columns[..|old(data.columns)|] == old(data.columns)
    ensures var s := IdStep(State(old(data.columns), old(data.cells), order), c, getId);
            && (err.Some? <==> s.Failure?)
            && (err.Some? ==> err.value == s.error)
            && (err.None? ==> s.value == StateOf(data, order))
  {
    err := None;
    if getId {
      var ids := ApplyAll(data.cells[c], false);
      if ids.Failure? {
        err := Some(ids.error);
        return;
      }
      data.Assign(c, ids.value);
    }
  }

  /** One iteration of the loop on the frame: the new order, or the error
      that stops the loop. */
  method DestructureColumn(data: Frame, c: string, getName: bool, getId: bool, order: seq<string>)
    returns (r: Result<seq<string>, PyException>)
    requires data.Valid() && c in data.cells
    modifies data
    ensures data.Valid() && data.rows == old(data.rows)
    ensures |data.columns| >= |old(data.columns)| && data.columns[..|old(data.columns)|] == old(data.columns)
    ensures var s := Step(State(old(data.columns), old(data.cells), order), c, getName, getId);
            && (r.Failure? <==> s.Failure?)
            && (r.Failure? ==> r.error == s.error)
            && (r.Success? ==> s.value == StateOf(data, r.value))
  {
    if IsRef(c) {
      r := DestructureReference(data, c, getName, getId, order);
    } else {
      r := Success(order + [c]);
    }
  }

  /** The iteration for a reference column: the name half, then the id
      half, then the column's entries in the order. */
  method DestructureReference(data: Frame, c: string, getName: bool, getId: bool, order: seq<string>)
    returns (r: Result<seq<string>, PyException>)
    requires data.Valid() && c in data.cells && IsRef(c)
    modifies data
    ensures data.Valid() && data.rows == old(data.rows)
    ensures |data.columns| >= |old(data.columns)| && data.columns[..|old(data.columns)|] == old(data.columns)
    ensures var s := Step(State(old(data.columns), old(data.cells), order), c, getName, getId);
            && (r.Failure? <==> s.Failure?)
            && (r.Failure? ==> r.error == s.error)
            && (r.Success? ==> s.value == StateOf(data, r.value))
  {
    ghost var before := StateOf(data, order);
    ghost var prefix := data.columns;
    var err := AssignName(data, c, getName, order);
    ghost var named := StateOf(data, order);
    ghost var middle := data.columns;
    if err.Some? {
      r := Failure(err.value);
    } else {
      err := AssignId(data, c, getId, order);
      if err.Some? {
        r := Failure(err.value);
      } else {
        r := Success(order + OrderOf(c, getName, getId));
        assert NameStep(before, c, getName) == Success(named);
        assert IdStep(named, c, getId) == Success(StateOf(data, order));
      }
      assert data.columns[..|prefix|] == middle[..|prefix|];
    }
  }

  /** The loop invariant one column further. */
  lemma ProcessAdvance(cols: seq<string>, i: int, start: State, st: State, getName: bool, getId: bool)
    requires 0 <= i < |cols|
    requires Process(cols, start, getName, getId) == Process(cols[i..], st, getName, getId)
    ensures Step(st, cols[i], getName, getId).Failure? ==>
              Process(cols, start, getName, getId) == Failure(Step(st, cols[i], getName, getId).error)
    ensures Step(st, cols[i], getName, getId).Success? ==>
              Process(cols, start, getName, getId) == Process(cols[i + 1..], Step(st, cols[i], getName, getId).value, getName, getId)
  {
    ProcessCons(cols[i..], st, getName, getId);
    assert cols[i..][0] == cols[i] && cols[i..][1..] == cols[i + 1..];
  }

  /** The loop one column further. */
  lemma ProcessCons(cols: seq<string>, st: State, getName: bool, getId: bool)
    requires cols != []
    ensures Step(st, cols[0], getName, getId).Failure? ==>
              Process(cols, st, getName, getId) == Failure(Step(st, cols[0], getName, getId).error)
    ensures Step(st, cols[0], getName, getId).Success? ==>
              Process(cols, st, getName, getId) == Process(cols[1..], Step(st, cols[0], getName, getId).value, getName, getId)
  {
  }

  /** The loop of `_destruture_many2one_columns` over a snapshot of the
      column names: the output order, or the error that stopped it. */
  method DestructureColumns(data: Frame, getName: bool, getId: bool) returns (r: Result<seq<string>, PyException>)
    requires data.Valid()
    modifies data
    ensures data.Valid() && data.rows == old(data.rows)
    ensures var p := Process(old(data.columns), State(old(data.columns), old(data.cells), []), getName, getId);
            && (r.Failure? <==> p.Failure?)
            && (r.Failure? ==> r.error == p.error)
            && (r.Success? ==> p.value == StateOf(data, r.value))
  {
    var snapshot := data.columns;
    ghost var start := StateOf(data, []);
    var order: seq<string> := [];
    var i := 0;
    while i < |snapshot|
      invariant 0 <= i <= |snapshot|
      invariant data.Valid() && data.rows == old(data.rows)
      invariant |data.columns| >= |snapshot| && data.columns[..|snapshot|] == snapshot
      invariant Process(snapshot, start, getName, getId) == Process(snapshot[i..], StateOf(data, order), getName, getId)
    {
      var next := DestructureNext(data, snapshot, i, start, getName, getId, order);
      if next.Failure? {
        return Failure(next.error);
      }
      order := next.value;
      i := i + 1;
    }
    assert snapshot[i..] == [];
    r := Success(order);
  }

  /** The body of that loop for the column at index `i` of the snapshot:
      the loop invariant one column further, or the error that ends the
      whole loop. */
  method DestructureNext(data: Frame, snapshot: seq<string>, i: int, ghost start: State,
                         getName: bool, getId: bool, order: seq<string>)
    returns (r: Result<seq<string>, PyException>)
    requires 0 <= i < |snapshot| && data.Valid()
    requires |data.columns| >= |snapshot| && data.columns[..|snapshot|] == snapshot
    requires Process(snapshot, start, getName, getId) == Process(snapshot[i..], StateOf(data, order), getName, getId)
    modifies data
    ensures data.Valid() && data.rows == old(data.rows)
    ensures r.Failure? ==> Process(snapshot, start, getName, getId) == Failure(r.error)
    ensures r.Success? ==> |data.columns| >= |snapshot| && data.columns[..|snapshot|] == snapshot
    ensures r.Success? ==>
              Process(snapshot, start, getName, getId) == Process(snapshot[i + 1..], StateOf(data, r.value), getName, getId)
  {
    var c := snapshot[i];
    assert c in data.cells by { assert data.columns[i] == c; }
    ghost var before := StateOf(data, order);
    ghost var cols := data.columns;
    r := DestructureColumn(data, c, getName, getId, order);
    ProcessAdvance(snapshot, i, start, before, getName, getId);
    if r.Success? {
      assert data.columns[..|snapshot|] == cols[..|snapshot|];
    }
  }

  /** `_destruture_many2one_columns(data, get)`: the loop, then
      `data[columns_order]`. */
  method Destructure(data: Frame, get: string) returns (r: Result<Table, PyException>)
    requires data.Valid()
    modifies data
    ensures r == Destructured(old(data.columns), old(data.cells), get)
    ensures data.Valid() && data.rows == old(data.rows)
    ensures var p := Process(old(data.columns), State(old(data.columns), old(data.cells), []), WantsName(get), WantsId(get));
            p.Success? ==> data.columns == p.value.columns && data.cells == p.value.cells
  {
    var order := DestructureColumns(data, WantsName(get), WantsId(get));
    if order.Failure? {
      return Failure(order.error);
    }
    r := Success(Select(data.cells, order.value));
  }

  // ----- properties of the destructuring -----

  /** The output order the loop builds, column by column. */
  function ExpectedOrder(cols: seq<string>, getName: bool, getId: bool): seq<string> {
    if cols == [] then [] else OrderOf(cols[0], getName, getId) + ExpectedOrder(cols[1..], getName, getId)
  }

  /** The output order depends on the column names and the mode only. */
  lemma {:induction false} ProcessOrder(cols: seq<string>, st: State, getName: bool, getId: bool)
    ensures Process(cols, st, getName, getId).Success? ==>
              Process(cols, st, getName, getId).value.order == st.order + ExpectedOrder(cols, getName, getId)
    decreases |cols|
  {
    if cols != [] {
      var s := Step(st, cols[0], getName, getId);
      if s.Success? {
        ProcessOrder(cols[1..], s.value, getName, getId);
      }
    }
  }

  /** The columns that are not references, in their order. */
  function NonRef(cols: seq<string>): seq<string> {
    if cols == [] then [] else (if IsRef(cols[0]) then [] else [cols[0]]) + NonRef(cols[1..])
  }

  /** The reference columns, in their order. */
  function Refs(cols: seq<string>): seq<string> {
    if cols == [] then [] else (if IsRef(cols[0]) then [cols[0]] else []) + Refs(cols[1..])
  }

  /** Each reference column replaced by its name column. */
  function Renamed(cols: seq<string>): (r: seq<string>)
    ensures |r| == |cols|
  {
    seq(|cols|, i requires 0 <= i < |cols| => if IsRef(cols[i]) then IdToName(cols[i]) else cols[i])
  }

  /** `id_only` keeps every column where it was. */
  lemma {:induction false} IdOnlyOrder(cols: seq<string>)
    ensures ExpectedOrder(cols, false, true) == cols
  {
    if cols != [] {
      IdOnlyOrder(cols[1..]);
      assert cols == [cols[0]] + cols[1..];
    }
  }

  /** `name_only` puts each name column in place of its reference column. */
  lemma {:induction false} NameOnlyOrder(cols: seq<string>)
    ensures ExpectedOrder(cols, true, false) == Renamed(cols)
  {
    if cols != [] {
      NameOnlyOrder(cols[1..]);
      var c := cols[0];
      assert Renamed(cols) == [if IsRef(c) then IdToName(c) else c] + Renamed(cols[1..]);
    }
  }

  /** Any other mode drops every reference column. */
  lemma {:induction false} UnknownModeOrder(cols: seq<string>)
    ensures ExpectedOrder(cols, false, false) == NonRef(cols)
  {
    if cols != [] {
      UnknownModeOrder(cols[1..]);
    }
  }

  /** `pair` adds the name column after each reference column: the
      references keep their order and there is one extra column per
      reference. */
  lemma {:induction false} PairOrder(cols: seq<string>)
    ensures Refs(ExpectedOrder(cols, true, true)) == Refs(cols)
    ensures |ExpectedOrder(cols, true, true)| == |cols| + |Refs(cols)|
  {
    if cols != [] {
      PairOrder(cols[1..]);
      var c := cols[0];
      RefsAppend(OrderOf(c, true, true), ExpectedOrder(cols[1..], true, true));
      if IsRef(c) {
        NameColumnIsNew(c);
        assert OrderOf(c, true, true) == [c, IdToName(c)];
        assert [c, IdToName(c)][1..] == [IdToName(c)];
      }
    }
  }

  lemma {:induction false} RefsAppend(a: seq<string>, b: seq<string>)
    ensures Refs(a + b) == Refs(a) + Refs(b)
  {
    if a != [] {
      var h := if IsRef(a[0]) then [a[0]] else [];
      assert (a + b)[0] == a[0];
      assert (a + b)[1..] == a[1..] + b;
      RefsAppend(a[1..], b);
      assert Refs(a + b) == h + Refs(a[1..] + b);
      assert Refs(a) == h + Refs(a[1..]);
    } else {
      assert a + b == b;
    }
  }

  /** The documented example's column order: `['id', 'user_id']` becomes
      `['id', 'user_id', 'user_name']` in mode `"pair"`, `['id', 'user_id']`
      in mode `"id_only"` and `['id', 'user_name']` in mode `"name_only"`. */
  lemma DocumentedOrder()
    ensures ExpectedOrder(["id", "user_id"], WantsName("pair"), WantsId("pair")) == ["id", "user_id", "user_name"]
    ensures ExpectedOrder(["id", "user_id"], WantsName("id_only"), WantsId("id_only")) == ["id", "user_id"]
    ensures ExpectedOrder(["id", "user_id"], WantsName("name_only"), WantsId("name_only")) == ["id", "user_name"]
  {
    assert WantsName("pair") && WantsId("pair");
    assert !WantsName("id_only") && WantsId("id_only");
    assert WantsName("name_only") && !WantsId("name_only");
    UserColumn();
    assert ["id", "user_id"][1..] == ["user_id"] && ["user_id"][1..] == [];
    TwoColumnOrder("id", "user_id", true, true);
    TwoColumnOrder("id", "user_id", false, true);
    TwoColumnOrder("id", "user_id", true, false);
  }

  /** The documented example as its docstring writes it, with mode
      `"pairs"`: that is no mode the method knows, so the reference column
      is dropped and only `id` is left, not `id, user_id, user_name`. */
  lemma DocumentedPairsCall()
    ensures !WantsName("pairs") && !WantsId("pairs")
    ensures ExpectedOrder(["id", "user_id"], WantsName("pairs"), WantsId("pairs")) == ["id"]
  {
    assert !WantsName("pairs") && !WantsId("pairs");
    UserColumn();
    TwoColumnOrder("id", "user_id", false, false);
  }

  /** The columns of the documented example: `id` is not a reference,
      `user_id` is one and its name column is `user_name`. */
  lemma UserColumn()
    ensures !IsRef("id") && IsRef("user_id") && IdToName("user_id") == "user_name"
  {
    var base := "user";
    assert '_' !in base;
    NoUnderscoreNoId(base);
    IdToNameOfIdColumn(base);
    var c := base + "_id";
    assert c[|c| - 3..] == "_id";
    assert c == "user_id";
    assert base + "_name" == "user_name";
  }

  /** The order of a two-column table. */
  lemma TwoColumnOrder(a: string, b: string, getName: bool, getId: bool)
    ensures ExpectedOrder([a, b], getName, getId) == OrderOf(a, getName, getId) + OrderOf(b, getName, getId)
  {
    assert [a, b][1..] == [b] && [b][1..] == [];
    assert ExpectedOrder([b], getName, getId) == OrderOf(b, getName, getId) + [];
    assert ExpectedOrder([a, b], getName, getId) == OrderOf(a, getName, getId) + ExpectedOrder([b], getName, getId);
  }


  // ----- cell values when names do not clash -----

  /** Every cell of a reference column is a non-list or a list of two or
      more, so neither extraction raises. */
  predicate Shaped(vals: seq<Value>) {
    forall i :: 0 <= i < |vals| ==> !vals[i].VList? || |vals[i].items| >= 2
  }

  /** Element `k` of a list, anything else unchanged. */
  function Pick(v: Value, k: nat): Value {
    if v.VList? && k < |v.items| then v.items[k] else v
  }

  function Ids(vals: seq<Value>): (r: seq<Value>)
    ensures |r| == |vals|
  {
    seq(|vals|, i requires 0 <= i < |vals| => Pick(vals[i], 0))
  }

  function Names(vals: seq<Value>): (r: seq<Value>)
    ensures |r| == |vals|
  {
    seq(|vals|, i requires 0 <= i < |vals| => Pick(vals[i], 1))
  }

  lemma ApplyShaped(vals: seq<Value>)
    requires Shaped(vals)
    ensures ApplyAll(vals, false) == Success(Ids(vals))
    ensures ApplyAll(vals, true) == Success(Names(vals))
  {
    assert forall i :: 0 <= i < |vals| ==> Get(vals[i], false).Success? && Get(vals[i], true).Success?;
    var a := ApplyAll(vals, false);
    var b := ApplyAll(vals, true);
    assert a.value == Ids(vals);
    assert b.value == Names(vals);
  }

  /** No reference column's name column is among the columns, and two
      reference columns never share a name column. */
  predicate NoClash(cols: seq<string>) {
    && (forall c, d :: c in cols && d in cols && IsRef(c) ==> IdToName(c) != d)
    && (forall c, d :: c in cols && d in cols && IsRef(c) && IsRef(d) && c != d ==> IdToName(c) != IdToName(d))
  }

  /** A key the loop over `cols` never writes keeps its cells. */
  lemma {:induction false} ProcessFrame(cols: seq<string>, st: State, getName: bool, getId: bool, k: string)
    requires k in st.cells && k !in cols
    requires forall c :: c in cols && IsRef(c) ==> IdToName(c) != k
    ensures var p := Process(cols, st, getName, getId);
            p.Success? ==> k in p.value.cells && p.value.cells[k] == st.cells[k]
    decreases |cols|
  {
    if cols != [] {
      var s := Step(st, cols[0], getName, getId);
      if s.Success? {
        assert cols[0] != k;
        forall c | c in cols[1..] && IsRef(c) ensures IdToName(c) != k {
          assert c in cols;
        }
        ProcessFrame(cols[1..], s.value, getName, getId, k);
      }
    }
  }

  /** The cells after one successful iteration over well-shaped cells. */
  function StepCells(cells: map<string, seq<Value>>, c: string, getName: bool, getId: bool): map<string, seq<Value>>
    requires c in cells
  {
    if !IsRef(c) then cells
    else
      var named := if getName then cells[IdToName(c) := Names(cells[c])] else cells;
      if getId then named[c := Ids(cells[c])] else named
  }

  /** One iteration over a column whose cells are well shaped succeeds, and
      writes exactly the name and id columns. */
  lemma StepValues(st: State, c: string, getName: bool, getId: bool)
    requires c in st.cells
    requires IsRef(c) ==> Shaped(st.cells[c])
    ensures Step(st, c, getName, getId).Success?
    ensures Step(st, c, getName, getId).value.cells == StepCells(st.cells, c, getName, getId)
  {
    if IsRef(c) {
      ApplyShaped(st.cells[c]);
      NameColumnIsNew(c);
      var n := NameStep(st, c, getName);
      assert n.Success?;
      assert n.value.cells[c] == st.cells[c];
    }
  }

  /** The tail of a list of distinct names is distinct and lacks the head. */
  lemma DistinctTail(cols: seq<string>)
    requires Distinct(cols) && cols != []
    ensures Distinct(cols[1..]) && cols[0] !in cols[1..]
  {
    forall j | 0 <= j < |cols[1..]| ensures cols[1..][j] != cols[0] {
      assert cols[1..][j] == cols[j + 1];
    }
  }

  /** With distinct, clash-free columns whose reference cells are well
      shaped, the loop succeeds; each reference column ends up holding the
      ids (when ids are requested) and its name column the labels (when
      names are), and every other column keeps its cells. */
  lemma {:induction false} ProcessValues(cols: seq<string>, st: State, getName: bool, getId: bool)
    requires Distinct(cols) && NoClash(cols)
    requires forall c :: c in cols ==> c in st.cells
    requires forall c :: c in cols && IsRef(c) ==> Shaped(st.cells[c])
    ensures Process(cols, st, getName, getId).Success?
    ensures var f := Process(cols, st, getName, getId).value;
            forall c :: c in cols ==>
              && c in f.cells
              && f.cells[c] == (if IsRef(c) && getId then Ids(st.cells[c]) else st.cells[c])
              && (IsRef(c) && getName ==> IdToName(c) in f.cells && f.cells[IdToName(c)] == Names(st.cells[c]))
    decreases |cols|
  {
    if cols != [] {
      var c0 := cols[0];
      var rest := cols[1..];
      StepValues(st, c0, getName, getId);
      var s1 := Step(st, c0, getName, getId).value;
      DistinctTail(cols);
      RestUntouched(cols, st.cells, getName, getId);
      assert NoClash(rest) by {
        assert forall c :: c in rest ==> c in cols;
      }
      ProcessValues(rest, s1, getName, getId);
      assert Process(cols, st, getName, getId) == Process(rest, s1, getName, getId);
      HeadUntouched(cols, s1, getName, getId);
    }
  }

  /** The columns after the head keep their cells through the head's
      iteration. */
  lemma RestUntouched(cols: seq<string>, cells: map<string, seq<Value>>, getName: bool, getId: bool)
    requires cols != [] && cols[0] in cells && cols[0] !in cols[1..] && NoClash(cols)
    ensures forall c :: c in cols[1..] && c in cells ==>
              c in StepCells(cells, cols[0], getName, getId) && StepCells(cells, cols[0], getName, getId)[c] == cells[c]
  {
    forall c | c in cols[1..] && c in cells
      ensures c in StepCells(cells, cols[0], getName, getId) && StepCells(cells, cols[0], getName, getId)[c] == cells[c]
    {
      var c0 := cols[0];
      assert c in cols && c != c0;
      if IsRef(c0) {
        assert c0 in cols;
        assert IdToName(c0) != c;
        var named := if getName then cells[IdToName(c0) := Names(cells[c0])] else cells;
        assert c in named && named[c] == cells[c];
      }
    }
  }

  /** The head's id and name columns are never written again by the rest
      of the loop. */
  lemma HeadUntouched(cols: seq<string>, s1: State, getName: bool, getId: bool)
    requires cols != [] && cols[0] !in cols[1..] && NoClash(cols)
    requires cols[0] in s1.cells
    requires IsRef(cols[0]) && getName ==> IdToName(cols[0]) in s1.cells
    ensures var p := Process(cols[1..], s1, getName, getId);
            p.Success? ==>
              && cols[0] in p.value.cells && p.value.cells[cols[0]] == s1.cells[cols[0]]
              && (IsRef(cols[0]) && getName ==>
                    IdToName(cols[0]) in p.value.cells && p.value.cells[IdToName(cols[0])] == s1.cells[IdToName(cols[0])])
  {
    var c0 := cols[0];
    var rest := cols[1..];
    assert c0 in cols;
    forall c | c in rest && IsRef(c) ensures IdToName(c) != c0 {
      assert c in cols;
    }
    ProcessFrame(rest, s1, getName, getId, c0);
    if IsRef(c0) && getName {
      var n0 := IdToName(c0);
      forall c | c in rest && IsRef(c) ensures IdToName(c) != n0 {
        assert c in cols;
      }
      assert n0 !in rest by {
        forall c | c in rest ensures c != n0 {
          assert c in cols;
        }
      }
      ProcessFrame(rest, s1, getName, getId, n0);
    }
  }

  /** Pair mode on a frame whose columns do not clash: the output is the
      expected order, each reference column holds the ids, its name column
      the labels, and every other column its own cells. */
  lemma PairModeValues(columns: seq<string>, cells: map<string, seq<Value>>)
    requires Distinct(columns) && NoClash(columns)
    requires forall c :: c in columns ==> c in cells
    requires forall c :: c in columns && IsRef(c) ==> Shaped(cells[c])
    ensures var r := Destructured(columns, cells, "pair");
            && r.Success?
            && r.value.columns == ExpectedOrder(columns, true, true)
            && (forall c :: c in columns && IsRef(c) ==>
                  && c in r.value.cells && r.value.cells[c] == Ids(cells[c])
                  && IdToName(c) in r.value.cells && r.value.cells[IdToName(c)] == Names(cells[c]))
            && (forall c :: c in columns && !IsRef(c) ==> c in r.value.cells && r.value.cells[c] == cells[c])
  {
    var st := State(columns, cells, []);
    ProcessValues(columns, st, true, true);
    ProcessOrder(columns, st, true, true);
    var f := Process(columns, st, true, true).value;
    var t := Select(f.cells, f.order);
    assert Destructured(columns, cells, "pair") == Success(t);
    forall c | c in columns && IsRef(c)
      ensures && c in t.cells && t.cells[c] == Ids(cells[c])
              && IdToName(c) in t.cells && t.cells[IdToName(c)] == Names(cells[c])
    {
      ExpectedOrderHas(columns, c, true, true);
    }
    forall c | c in columns && !IsRef(c) ensures c in t.cells && t.cells[c] == cells[c] {
      ExpectedOrderHas(columns, c, true, true);
    }
  }

  lemma {:induction false} ExpectedOrderHas(cols: seq<string>, c: string, getName: bool, getId: bool)
    requires c in cols
    ensures !IsRef(c) || getId ==> c in ExpectedOrder(cols, getName, getId)
    ensures IsRef(c) && getName ==> IdToName(c) in ExpectedOrder(cols, getName, getId)
  {
    if cols[0] != c {
      ExpectedOrderHas(cols[1..], c, getName, getId);
    }
  }

  // ----- `dataset` -----

  /** `dict.fromkeys(xs)`: each name once, at its first position. */
  function Dedup(xs: seq<string>, acc: seq<string>): (r: seq<string>)
    requires Distinct(acc)
    ensures Distinct(r)
    ensures forall x :: x in r <==> x in acc || x in xs
    ensures |r| >= |acc| && r[..|acc|] == acc
    decreases |xs|
  {
    if xs == [] then acc
    else if xs[0] in acc then Dedup(xs[1..], acc)
    else
      var r := Dedup(xs[1..], acc + [xs[0]]);
      assert r[..|acc|] == (acc + [xs[0]])[..|acc|];
      r
  }

  /** Names that are already distinct come out as they went in, in their
      order. */
  lemma {:induction false} DedupDistinct(xs: seq<string>, acc: seq<string>)
    requires Distinct(acc) && Distinct(acc + xs)
    ensures Dedup(xs, acc) == acc + xs
    decreases |xs|
  {
    if xs != [] {
      forall k | 0 <= k < |acc| ensures acc[k] != xs[0] {
        assert (acc + xs)[k] == acc[k] && (acc + xs)[|acc|] == xs[0];
      }
      assert (acc + [xs[0]]) + xs[1..] == acc + xs;
      DedupDistinct(xs[1..], acc + [xs[0]]);
    }
  }

  /** The skeleton `dataset` falls back to: columns `id` then the requested
      fields (each once), all of them empty. */
  function EmptyTable(fields: seq<string>): (t: Table)
    ensures Distinct(t.columns) && |t.columns| >= 1 && t.columns[0] == "id"
    ensures forall c :: c in t.columns <==> c == "id" || c in fields
    ensures forall c :: c in t.columns <==> c in t.cells
    ensures forall c :: c in t.cells ==> t.cells[c] == []
    ensures Distinct(fields) && "id" !in fields ==> t.columns == ["id"] + fields
  {
    var cols := Dedup(fields, ["id"]);
    assert Distinct(fields) && "id" !in fields ==> cols == ["id"] + fields by {
      if Distinct(fields) && "id" !in fields {
        forall i, j | 0 <= i < j < |["id"] + fields| ensures (["id"] + fields)[i] != (["id"] + fields)[j] {
          if i > 0 {
            assert (["id"] + fields)[i] == fields[i - 1];
          }
          assert (["id"] + fields)[j] == fields[j - 1];
        }
        DedupDistinct(fields, ["id"]);
      }
    }
    Table(cols, map c | c in cols :: [])
  }

  /** `dataset` as written: the destructured rows when there are rows and
      the mode is not `"raw"`, the empty skeleton otherwise. */
  function DatasetAsWritten(columns: seq<string>, cells: map<string, seq<Value>>, rows: nat,
                            fields: seq<string>, mode: string): (r: Result<Table, PyException>)
    ensures rows > 0 && mode != "raw" ==> r == Destructured(columns, cells, mode)
    ensures rows == 0 || mode == "raw" ==> r == Success(EmptyTable(fields))
  {
    if rows > 0 && mode != "raw" then Destructured(columns, cells, mode)
    else Success(EmptyTable(fields))
  }

  /** `dataset` with `"raw"` doing what it is documented to do, returning
      the rows without splitting any column. */
  function Dataset(columns: seq<string>, cells: map<string, seq<Value>>, rows: nat,
                   fields: seq<string>, mode: string): (r: Result<Table, PyException>)
    ensures rows > 0 && mode == "raw" ==> r == Success(Table(columns, cells))
    ensures rows == 0 || mode != "raw" ==> r == DatasetAsWritten(columns, cells, rows, fields, mode)
  {
    if rows > 0 && mode == "raw" then Success(Table(columns, cells))
    else DatasetAsWritten(columns, cells, rows, fields, mode)
  }

  /** As written, `"raw"` loses every fetched row: one record
      `{id: 7, user_id: [3, "admin"]}` comes back as the empty skeleton. */
  lemma RawModeDropsRows()
    ensures var cells := map["id" := [VInt(7)], "user_id" := [VList([VInt(3), VStr("admin")])]];
            && DatasetAsWritten(["id", "user_id"], cells, 1, ["user_id"], "raw")
               == Success(Table(["id", "user_id"], map["id" := [], "user_id" := []]))
            && Dataset(["id", "user_id"], cells, 1, ["user_id"], "raw") == Success(Table(["id", "user_id"], cells))
  {
    var t := EmptyTable(["user_id"]);
    assert "id" in t.columns && "user_id" in t.columns;
    assert t.columns == ["id", "user_id"] by {
      assert |t.columns| >= 2;
    }
    assert t.cells == map["id" := [], "user_id" := []];
  }

  // ----- the older `get_dataset` column order -----

  /** `_rename_df_column_ref`: the text before the first `"_id"` with `_id`
      and `_name` appended; with no `"_id"`, `find` gives -1 and the slice
      drops the last character. */
  function RenameColumnRef(reference: string): (r: seq<string>)
    ensures |r| == 2
    ensures ContainsId(reference) ==>
              var p := reference[..FindId(reference)];
              !ContainsId(p) && r == [p + "_id", p + "_name"]
    ensures !ContainsId(reference) && |reference| >= 1 ==>
              r == [reference[..|reference| - 1] + "_id", reference[..|reference| - 1] + "_name"]
  {
    var p := SliceTo(reference, FindId(reference));
    if ContainsId(reference) then
      var e := FindId(reference);
      assert p == reference[..e];
      assert !ContainsId(p) by {
        forall i | 0 <= i < |p| ensures !IdAt(p, i) {
          IdAtChars(p, i);
          IdAtChars(reference, i);
        }
      }
      [p + "_id", p + "_name"]
    else
      [p + "_id", p + "_name"]
  }

  /** For a column `base + "_id"` the older renaming and the newer
      replacement agree: the id column keeps its name and the name column
      is `base + "_name"`. A name without `"_id"` loses its last letter. */
  lemma RenameAgreesWithReplace(base: string)
    requires !ContainsId(base)
    ensures RenameColumnRef(base + "_id") == [base + "_id", IdToName(base + "_id")]
    ensures RenameColumnRef("partner") == ["partne_id", "partne_name"]
  {
    AppendIdFirstAt(base);
    IdToNameOfIdColumn(base);
    assert (base + "_id")[..|base|] == base;
    var s := "partner";
    NoUnderscoreNoId(s);
    assert s[..6] == "partne";
    assert "partne" + "_id" == "partne_id" && "partne" + "_name" == "partne_name";
  }

  /** The columns one requested field contributes to the older order. */
  function LegacyPiece(field: string, isMany2one: string -> bool, idsOnly: bool): seq<string> {
    if isMany2one(field) && !idsOnly then RenameColumnRef(field) else [field]
  }

  /** The column order the older `get_dataset` returns. */
  function LegacyOrder(fields: seq<string>, isMany2one: string -> bool, idsOnly: bool): seq<string> {
    if fields == [] then []
    else LegacyPiece(fields[0], isMany2one, idsOnly) + LegacyOrder(fields[1..], isMany2one, idsOnly)
  }

  /** The loop invariant one field further. */
  lemma LegacyOrderAdvance(fields: seq<string>, i: int, before: seq<string>, isMany2one: string -> bool, idsOnly: bool)
    requires 0 <= i < |fields|
    ensures before + LegacyOrder(fields[i..], isMany2one, idsOnly)
         == (before + LegacyPiece(fields[i], isMany2one, idsOnly)) + LegacyOrder(fields[i + 1..], isMany2one, idsOnly)
  {
    assert fields[i..][1..] == fields[i + 1..];
  }

  /** The older `get_dataset` column loop: `['id']`, then per requested
      field either its two renamed columns (a many-to-one field, unless ids
      only) or the field itself. Whether a field is many-to-one comes from
      the model's field catalog, taken here as a predicate. */
  method LegacyColumns(fields: seq<string>, isMany2one: string -> bool, idsOnly: bool) returns (columns: seq<string>)
    ensures columns == ["id"] + LegacyOrder(fields, isMany2one, idsOnly)
  {
    columns := ["id"];
    var i := 0;
    while i < |fields|
      invariant 0 <= i <= |fields|
      invariant columns + LegacyOrder(fields[i..], isMany2one, idsOnly) == ["id"] + LegacyOrder(fields, isMany2one, idsOnly)
    {
      var field := fields[i];
      LegacyOrderAdvance(fields, i, columns, isMany2one, idsOnly);
      ghost var expected := columns + LegacyPiece(field, isMany2one, idsOnly);
      if isMany2one(field) && !idsOnly {
        var newColumns := RenameColumnRef(field);
        columns := columns + [newColumns[0]];
        columns := columns + [newColumns[1]];
        assert newColumns == [newColumns[0], newColumns[1]];
      } else {
        columns := columns + [field];
      }
      assert columns == expected;
      i := i + 1;
    }
    assert fields[|fields|..] == [];
  }

  /** The older order: with ids only it is `id` then the fields as given;
      otherwise each many-to-one field counts twice. */
  lemma {:induction false} LegacyOrderShape(fields: seq<string>, isMany2one: string -> bool, idsOnly: bool)
    ensures idsOnly ==> LegacyOrder(fields, isMany2one, idsOnly) == fields
    ensures |LegacyOrder(fields, isMany2one, idsOnly)| == |fields| + (if idsOnly then 0 else CountWhere(fields, isMany2one))
  {
    if fields != [] {
      LegacyOrderShape(fields[1..], isMany2one, idsOnly);
    }
  }

  function CountWhere(xs: seq<string>, p: string -> bool): nat {
    if xs == [] then 0 else (if p(xs[0]) then 1 else 0) + CountWhere(xs[1..], p)
  }
}
