/** The search-criteria structure: a flat list of logic tokens and
    `(field, operator, value)` triplets, read as a boolean expression in
    prefix (Polish) notation, where `&` and `|` each take the next two
    sub-expressions. */
module Criteria {
  import opened Wrappers
  import opened PyValues

  /** `_LogicOperator`. */
  datatype LogicOp = And | Or {
    function Symbol(): string {
      match this
      case And => "&"
      case Or => "|"
    }
  }

  /** `_ComparisonOperator`. */
  datatype CompOp = Eq | Ne | In | NotIn | ILike | NotILike | Gt | Lt | Ge | Le {
    function Symbol(): string {
      match this
      case Eq => "="
      case Ne => "!="
      case In => "in"
      case NotIn => "not in"
      case ILike => "ilike"
      case NotILike => "not ilike"
      case Gt => ">"
      case Lt => "<"
      case Ge => ">="
      case Le => "<="
    }
  }

  /** `_SerializableValue`: int, float (opaque), str, bool or None. */
  datatype Scalar = SInt(i: int) | SFloat(mantissa: int, exponent: int) | SStr(s: string) | SBool(b: bool) | SNone

  /** `_TripletValue`: one scalar or a list of scalars. */
  datatype TripletValue = Single(scalar: Scalar) | Many(scalars: seq<Scalar>)

  /** `Triplet`. */
  datatype Triplet = Triplet(field: string, op: CompOp, value: TripletValue)

  /** One element of a `CriteriaStructure`: never itself a list. */
  datatype Token = Logic(logic: LogicOp) | Term(triplet: Triplet)

  /** The ten comparison symbols. */
  const ComparisonSymbols: set<string> :=
    {"=", "!=", "in", "not in", "ilike", "not ilike", ">", "<", ">=", "<="}

  /** Recognises a logic token. */
  function ParseLogic(s: string): (r: Option<LogicOp>)
    ensures r.Some? <==> s == "&" || s == "|"
    ensures r.Some? ==> r.value.Symbol() == s
  {
    if s == "&" then Some(And) else if s == "|" then Some(Or) else None
  }

  /** Recognises a comparison operator. */
  function ParseComp(s: string): (r: Option<CompOp>)
    ensures r.Some? <==> s in ComparisonSymbols
    ensures r.Some? ==> r.value.Symbol() == s
  {
    if s == "=" then Some(Eq)
    else if s == "!=" then Some(Ne)
    else if s == "in" then Some(In)
    else if s == "not in" then Some(NotIn)
    else if s == "ilike" then Some(ILike)
    else if s == "not ilike" then Some(NotILike)
    else if s == ">" then Some(Gt)
    else if s == "<" then Some(Lt)
    else if s == ">=" then Some(Ge)
    else if s == "<=" then Some(Le)
    else None
  }

  /** The operator vocabularies: each symbol names exactly one operator,
      and the comparison symbols are exactly the symbols of the ten
      comparison operators. */
  lemma OperatorVocabulary(l: LogicOp, c: CompOp, s: string)
    ensures ParseLogic(l.Symbol()) == Some(l)
    ensures ParseComp(c.Symbol()) == Some(c)
    ensures s in ComparisonSymbols <==> exists d: CompOp :: d.Symbol() == s
  {
    if s in ComparisonSymbols {
      var d := ParseComp(s).value;
      assert d.Symbol() == s;
    }
  }

  // ----- the expression a criteria list stands for -----

  /** The boolean expression tree that the flat list serialises. */
  datatype Expr = Leaf(triplet: Triplet) | Node(op: LogicOp, left: Expr, right: Expr)

  /** Serialises a tree in prefix order: the operator, then its two operands. */
  function Flatten(e: Expr): (r: seq<Token>)
    ensures |r| >= 1
  {
    match e
    case Leaf(t) => [Term(t)]
    case Node(op, l, r) => [Logic(op)] + Flatten(l) + Flatten(r)
  }

  /** Reads one expression from the front of a criteria list and returns it
      with the unread rest, or `None` when an operator lacks an operand. */
  function Parse(ts: seq<Token>): (r: Option<(Expr, seq<Token>)>)
    ensures r.Some? ==> |r.value.1| < |ts|
    ensures r.Some? ==> ts == Flatten(r.value.0) + r.value.1
    decreases |ts|
  {
    if ts == [] then None
    else match ts[0]
      case Term(t) =>
        assert ts == [Term(t)] + ts[1..];
        Some((Leaf(t), ts[1..]))
      case Logic(op) =>
        match Parse(ts[1..])
        case None => None
        case Some((l, rest1)) =>
          match Parse(rest1)
          case None => None
          case Some((r, rest2)) =>
            assert ts == [Logic(op)] + Flatten(l) + Flatten(r) + rest2 by {
              assert ts == [ts[0]] + ts[1..];
            }
            Some((Node(op, l, r), rest2))
  }

  /** A criteria list that is exactly one complete prefix expression. */
  predicate WellFormed(ts: seq<Token>) {
    var p := Parse(ts);
    p.Some? && p.value.1 == []
  }

  /** Flattening round-trip: a prefix parser reconstructs the tree from its
      serialisation, whatever follows it. */
  lemma {:induction false} ParseFlatten(e: Expr, rest: seq<Token>)
    ensures Parse(Flatten(e) + rest) == Some((e, rest))
  {
    match e
    case Leaf(t) =>
      assert (Flatten(e) + rest)[1..] == rest;
    case Node(op, l, r) =>
      var ts := Flatten(e) + rest;
      assert ts[1..] == Flatten(l) + (Flatten(r) + rest);
      ParseFlatten(l, Flatten(r) + rest);
      ParseFlatten(r, rest);
  }

  /** Hence serialisation is faithful: two different trees never share a
      flat form, and every flat form is well formed. */
  lemma FlattenInjective(a: Expr, b: Expr)
    ensures Flatten(a) == Flatten(b) ==> a == b
    ensures WellFormed(Flatten(a))
  {
    ParseFlatten(a, []);
    ParseFlatten(b, []);
    assert Flatten(a) + [] == Flatten(a);
    assert Flatten(b) + [] == Flatten(b);
  }

  /** The meaning of an expression, given which triplets a record satisfies. */
  function Holds(e: Expr, sat: Triplet -> bool): bool {
    match e
    case Leaf(t) => sat(t)
    case Node(And, l, r) => Holds(l, sat) && Holds(r, sat)
    case Node(Or, l, r) => Holds(l, sat) || Holds(r, sat)
  }

  /** The documented reading: `['|', '&', c1, c2, c3]` means
      `(c1 and c2) or c3`. */
  lemma DocumentedExample(c1: Triplet, c2: Triplet, c3: Triplet, sat: Triplet -> bool)
    ensures var p := Parse([Logic(Or), Logic(And), Term(c1), Term(c2), Term(c3)]);
            && p == Some((Node(Or, Node(And, Leaf(c1), Leaf(c2)), Leaf(c3)), []))
            && (Holds(p.value.0, sat) <==> (sat(c1) && sat(c2)) || sat(c3))
  {
    var e := Node(Or, Node(And, Leaf(c1), Leaf(c2)), Leaf(c3));
    ParseFlatten(e, []);
    assert Flatten(e) + [] == [Logic(Or), Logic(And), Term(c1), Term(c2), Term(c3)];
    assert Holds(Node(And, Leaf(c1), Leaf(c2)), sat) == (sat(c1) && sat(c2));
  }

  // ----- criteria as the Python value sent over the wire -----

  function ScalarValue(s: Scalar): Value {
    match s
    case SInt(i) => VInt(i)
    case SFloat(m, e) => VFloat(m, e)
    case SStr(x) => VStr(x)
    case SBool(b) => VBool(b)
    case SNone => VNone
  }

  function TripletValueOf(v: TripletValue): Value {
    match v
    case Single(s) => ScalarValue(s)
    case Many(xs) => VList(seq(|xs|, i requires 0 <= i < |xs| => ScalarValue(xs[i])))
  }

  /** A token as sent: a logic symbol string or a 3-tuple. */
  function TokenValue(t: Token): Value {
    match t
    case Logic(op) => VStr(op.Symbol())
    case Term(Triplet(f, op, v)) => VTuple([VStr(f), VStr(op.Symbol()), TripletValueOf(v)])
  }

  /** A criteria list as the Python list sent in `args`. */
  function ToValue(ts: seq<Token>): (v: Value)
    ensures v.VList? && |v.items| == |ts|
    ensures forall i :: 0 <= i < |ts| ==> v.items[i] == TokenValue(ts[i])
  {
    VList(seq(|ts|, i requires 0 <= i < |ts| => TokenValue(ts[i])))
  }

  function StrScalars(xs: seq<string>): (r: seq<Scalar>)
    ensures |r| == |xs|
  {
    seq(|xs|, i requires 0 <= i < |xs| => SStr(xs[i]))
  }

  // ----- the field-catalog query (`model_fields`) -----

  /** `('model_id', '=', model)`. */
  function ModelIs(model: string): Triplet {
    Triplet("model_id", Eq, Single(SStr(model)))
  }

  /** `('name', 'in', fields)`. */
  function NameIn(fields: seq<string>): Triplet {
    Triplet("name", In, Many(StrScalars(fields)))
  }

  /** The criteria `model_fields` queries with: the model triplet alone, or,
      when a non-empty field list is given, the conjunction of it and the
      name triplet. */
  function FieldCatalogCriteria(model: string, fields: Option<seq<string>>): (r: seq<Token>)
    ensures fields.Some? && |fields.value| > 0 ==>
              Parse(r) == Some((Node(And, Leaf(ModelIs(model)), Leaf(NameIn(fields.value))), []))
    ensures !(fields.Some? && |fields.value| > 0) ==> Parse(r) == Some((Leaf(ModelIs(model)), []))
  {
    if fields.Some? && |fields.value| > 0 then
      var e := Node(And, Leaf(ModelIs(model)), Leaf(NameIn(fields.value)));
      ParseFlatten(e, []);
      assert Flatten(e) + [] == [Logic(And), Term(ModelIs(model)), Term(NameIn(fields.value))];
      [Logic(And), Term(ModelIs(model)), Term(NameIn(fields.value))]
    else
      ParseFlatten(Leaf(ModelIs(model)), []);
      assert Flatten(Leaf(ModelIs(model))) + [] == [Term(ModelIs(model))];
      [Term(ModelIs(model))]
  }

  /** `model_fields`' criteria, built as the source does: start from the
      model triplet, insert `'&'` at the front and append the name triplet
      when the field list is truthy. */
  method ModelFieldsCriteria(model: string, fields: Option<seq<string>>) returns (criteria: seq<Token>)
    ensures criteria == FieldCatalogCriteria(model, fields)
    ensures WellFormed(criteria)
  {
    criteria := [Term(ModelIs(model))];
    if fields.Some? && |fields.value| > 0 {
      criteria := [Logic(And)] + criteria;
      criteria := criteria + [Term(NameIn(fields.value))];
    }
  }

  /** The earlier `model_fields` never narrows by field: its criteria is
      the single model triplet, the same as the current one with no fields. */
  function LegacyFieldCatalogCriteria(model: string): (r: seq<Token>)
    ensures r == FieldCatalogCriteria(model, None)
    ensures WellFormed(r) && |r| == 1
  {
    [Term(ModelIs(model))]
  }
}
