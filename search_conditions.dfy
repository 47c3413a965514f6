/**
  search/conditions.py: the newer condition tree. NOT, AND and OR are set
  algebra over the working set of adapted records; a comparison leaf keeps the
  records one of whose fields satisfies the leaf's operator against its query
  field. The field classes of search/fields.py define no comparison operators,
  so the operator itself is the parameter `rel`: rel(op, f, name, literal) is
  what OPERATOR(f, QueryField(name, literal)) answers. Which operator each
  expression class names is the parameter `ops`: `OperatorAsWritten` is the
  table as the code stands and `Operator` the table its EXPRESSION_NAMEs
  intend.
 */
module SearchConditions {
  import opened Wrappers
  import opened PyValues
  import opened Records
  import opened Validation
  import Fields

  /** The Python functions an expression class can name as its OPERATOR. */
  datatype PyOperator = OpEq | OpNe | OpLike | OpLt | OpLe | OpGt | OpGe

  /** The expression classes. */
  datatype ExprKind =
    | EqualExpression | NotEqualExpression | LikeExpression
    | LessThanExpression | LessThanOrEqualExpression
    | GreaterThanExpression | GreaterThanOrEqualExpression

  type Relation = (PyOperator, SearchField, string, string) -> bool

  /** The OPERATOR class attribute of every expression class. */
  type OperatorTable = ExprKind -> PyOperator

  /** A condition tree; an Expression keeps its query field's name (str(lhs)) and literal. */
  datatype Condition =
    | NotStatement(condition: Condition)
    | AndStatement(condition1: Condition, condition2: Condition)
    | OrStatement(condition1: Condition, condition2: Condition)
    | Expression(kind: ExprKind, name: string, value: string)

  /** EXPRESSION_NAME of each class; none holds a parenthesis, so a rendered leaf stays one group. */
  function ExpressionName(kind: ExprKind): (r: string)
    ensures 0 < |r| <= 4 && forall k :: 0 <= k < |r| ==> !IsParen(r[k])
  {
    match kind
    case EqualExpression => "="
    case NotEqualExpression => "!="
    case LikeExpression => "LIKE"
    case LessThanExpression => "<"
    case LessThanOrEqualExpression => "<="
    case GreaterThanExpression => ">"
    case GreaterThanOrEqualExpression => ">="
  }

  /** OPERATOR of each class as written: GreaterThanOrEqualExpression names operator.gt. */
  function OperatorAsWritten(kind: ExprKind): PyOperator {
    match kind
    case EqualExpression => OpEq
    case NotEqualExpression => OpNe
    case LikeExpression => OpLike
    case LessThanExpression => OpLt
    case LessThanOrEqualExpression => OpLe
    case GreaterThanExpression => OpGt
    case GreaterThanOrEqualExpression => OpGt
  }

  /** OPERATOR of each class as its EXPRESSION_NAME intends: the two tables differ only at '>='. */
  function Operator(kind: ExprKind): (op: PyOperator)
    ensures kind != GreaterThanOrEqualExpression ==> op == OperatorAsWritten(kind)
    ensures kind == GreaterThanOrEqualExpression ==> op == OpGe
  {
    if kind == GreaterThanOrEqualExpression then OpGe else OperatorAsWritten(kind)
  }

  /** Distinct expression classes use distinct operators in the intended table. */
  lemma OperatorInjective(k1: ExprKind, k2: ExprKind)
    requires Operator(k1) == Operator(k2)
    ensures k1 == k2
  {
  }

  /** `check`: some field of the record satisfies the operator against the query field. */
  predicate AnyField(op: PyOperator, fields: seq<SearchField>, name: string, value: string, rel: Relation) {
    exists k :: 0 <= k < |fields| && rel(op, fields[k], name, value)
  }

  /** What a comparison leaf returns. */
  function Leaf(op: PyOperator, name: string, value: string, values: set<Adapted>, rel: Relation): set<Adapted> {
    set v | v in values && AnyField(op, v.fields, name, value, rel)
  }

  /** Condition.__call__(values). */
  function Eval(c: Condition, values: set<Adapted>, rel: Relation, ops: OperatorTable): (r: set<Adapted>)
    ensures r <= values
  {
    match c
    case NotStatement(d) => values - (values * Eval(d, values, rel, ops))
    case AndStatement(c1, c2) => Eval(c1, values, rel, ops) * Eval(c2, values, rel, ops)
    case OrStatement(c1, c2) => Eval(c1, values, rel, ops) + Eval(c2, values, rel, ops)
    case Expression(kind, name, value) => Leaf(ops(kind), name, value, values, rel)
  }

  /** Whether one record satisfies a condition, record by record. */
  predicate Holds(c: Condition, v: Adapted, rel: Relation, ops: OperatorTable) {
    match c
    case NotStatement(d) => !Holds(d, v, rel, ops)
    case AndStatement(c1, c2) => Holds(c1, v, rel, ops) && Holds(c2, v, rel, ops)
    case OrStatement(c1, c2) => Holds(c1, v, rel, ops) || Holds(c2, v, rel, ops)
    case Expression(kind, name, value) => AnyField(ops(kind), v.fields, name, value, rel)
  }

  /** A record is selected exactly when it is in the working set and satisfies the condition on its own. */
  lemma {:induction false} EvalPointwise(c: Condition, values: set<Adapted>, rel: Relation, ops: OperatorTable, v: Adapted)
    ensures v in Eval(c, values, rel, ops) <==> v in values && Holds(c, v, rel, ops)
  {
    match c
    case NotStatement(d) =>
      EvalPointwise(d, values, rel, ops, v);
    case AndStatement(c1, c2) =>
      EvalPointwise(c1, values, rel, ops, v);
      EvalPointwise(c2, values, rel, ops, v);
    case OrStatement(c1, c2) =>
      EvalPointwise(c1, values, rel, ops, v);
      EvalPointwise(c2, values, rel, ops, v);
    case Expression(_, _, _) =>
  }

  /** Evaluating on a smaller working set gives the larger result cut down to it. */
  lemma EvalRestricts(c: Condition, small: set<Adapted>, large: set<Adapted>, rel: Relation, ops: OperatorTable)
    requires small <= large
    ensures Eval(c, small, rel, ops) == Eval(c, large, rel, ops) * small
  {
    forall v ensures v in Eval(c, small, rel, ops) <==> v in Eval(c, large, rel, ops) * small {
      EvalPointwise(c, small, rel, ops, v);
      EvalPointwise(c, large, rel, ops, v);
    }
  }

  /** NOT keeps exactly the working-set records the inner condition did not select. */
  lemma NotIsComplement(c: Condition, values: set<Adapted>, rel: Relation, ops: OperatorTable)
    ensures Eval(NotStatement(c), values, rel, ops) == values - Eval(c, values, rel, ops)
    ensures Eval(NotStatement(c), values, rel, ops) * Eval(c, values, rel, ops) == {}
  {
  }

  /** `!!c` selects what `c` selects. */
  lemma DoubleNegation(c: Condition, values: set<Adapted>, rel: Relation, ops: OperatorTable)
    ensures Eval(NotStatement(NotStatement(c)), values, rel, ops) == Eval(c, values, rel, ops)
  {
  }

  lemma AndCommutative(c1: Condition, c2: Condition, values: set<Adapted>, rel: Relation, ops: OperatorTable)
    ensures Eval(AndStatement(c1, c2), values, rel, ops) == Eval(AndStatement(c2, c1), values, rel, ops)
  {
  }

  lemma AndIdempotent(c: Condition, values: set<Adapted>, rel: Relation, ops: OperatorTable)
    ensures Eval(AndStatement(c, c), values, rel, ops) == Eval(c, values, rel, ops)
  {
  }

  lemma OrCommutative(c1: Condition, c2: Condition, values: set<Adapted>, rel: Relation, ops: OperatorTable)
    ensures Eval(OrStatement(c1, c2), values, rel, ops) == Eval(OrStatement(c2, c1), values, rel, ops)
  {
  }

  lemma OrIdempotent(c: Condition, values: set<Adapted>, rel: Relation, ops: OperatorTable)
    ensures Eval(OrStatement(c, c), values, rel, ops) == Eval(c, values, rel, ops)
  {
  }

  /** De Morgan's laws hold relative to the working set. */
  lemma DeMorgan(c1: Condition, c2: Condition, values: set<Adapted>, rel: Relation, ops: OperatorTable)
    ensures Eval(NotStatement(AndStatement(c1, c2)), values, rel, ops) ==
            Eval(OrStatement(NotStatement(c1), NotStatement(c2)), values, rel, ops)
    ensures Eval(NotStatement(OrStatement(c1, c2)), values, rel, ops) ==
            Eval(AndStatement(NotStatement(c1), NotStatement(c2)), values, rel, ops)
  {
  }

  /** `check(v)`: scan the fields in order and stop at the first that satisfies the operator. */
  method Check(op: PyOperator, fields: seq<SearchField>, name: string, value: string, rel: Relation) returns (found: bool)
    ensures found <==> AnyField(op, fields, name, value, rel)
  {
    for i := 0 to |fields|
      invariant forall k :: 0 <= k < i ==> !rel(op, fields[k], name, value)
    {
      if rel(op, fields[i], name, value) {
        return true;
      }
    }
    return false;
  }

  /** Expression.__call__: add every working-set record that passes `check` to a fresh result set. */
  method ExpressionCall(kind: ExprKind, name: string, value: string, values: set<Adapted>, rel: Relation, ops: OperatorTable)
    returns (results: set<Adapted>)
    ensures results == Eval(Expression(kind, name, value), values, rel, ops)
  {
    results := {};
    var remaining := values;
    while remaining != {}
      invariant remaining <= values
      invariant results == Leaf(ops(kind), name, value, values - remaining, rel)
      decreases |remaining|
    {
      var v :| v in remaining;
      var ok := Check(ops(kind), v.fields, name, value, rel);
      if ok {
        results := results + {v};
      }
      remaining := remaining - {v};
    }
  }

  /** As written, `>=` filters exactly like `>`. */
  lemma GreaterOrEqualAsWrittenIsGreater(name: string, value: string, values: set<Adapted>, rel: Relation)
    ensures Eval(Expression(GreaterThanOrEqualExpression, name, value), values, rel, OperatorAsWritten) ==
            Eval(Expression(GreaterThanExpression, name, value), values, rel, OperatorAsWritten)
  {
  }

  /** Whether a condition holds a `>=` leaf anywhere. */
  predicate UsesGreaterOrEqual(c: Condition) {
    match c
    case NotStatement(d) => UsesGreaterOrEqual(d)
    case AndStatement(c1, c2) => UsesGreaterOrEqual(c1) || UsesGreaterOrEqual(c2)
    case OrStatement(c1, c2) => UsesGreaterOrEqual(c1) || UsesGreaterOrEqual(c2)
    case Expression(kind, _, _) => kind == GreaterThanOrEqualExpression
  }

  /** A condition without a `>=` leaf selects the same records under both tables. */
  lemma {:induction false} TablesAgreeWithoutGreaterOrEqual(c: Condition, values: set<Adapted>, rel: Relation)
    requires !UsesGreaterOrEqual(c)
    ensures Eval(c, values, rel, Operator) == Eval(c, values, rel, OperatorAsWritten)
  {
    match c
    case NotStatement(d) =>
      TablesAgreeWithoutGreaterOrEqual(d, values, rel);
    case AndStatement(c1, c2) =>
      TablesAgreeWithoutGreaterOrEqual(c1, values, rel);
      TablesAgreeWithoutGreaterOrEqual(c2, values, rel);
    case OrStatement(c1, c2) =>
      TablesAgreeWithoutGreaterOrEqual(c1, values, rel);
      TablesAgreeWithoutGreaterOrEqual(c2, values, rel);
    case Expression(_, _, _) =>
  }

  /**
    The comparisons of fields.py, which the newer field classes were meant to
    keep: LIKE is match and the rest compare after converting the literal.
   */
  function LegacyRelation(re: (string, string) -> bool, convert: Fields.Conversion): Relation {
    (op: PyOperator, f: SearchField, name: string, value: string) =>
      match op
      case OpLike => Fields.Match(f, name, VStr(value), re)
      case OpEq => Fields.Compare(Eq, f, name, VStr(value), re, convert)
      case OpNe => Fields.Compare(Ne, f, name, VStr(value), re, convert)
      case OpLt => Fields.Compare(Lt, f, name, VStr(value), re, convert)
      case OpLe => Fields.Compare(Le, f, name, VStr(value), re, convert)
      case OpGt => Fields.Compare(Gt, f, name, VStr(value), re, convert)
      case OpGe => Fields.Compare(Ge, f, name, VStr(value), re, convert)
  }

  /**
    `x >= 3` on a record whose field x holds 3, compared as fields.py compares
    once `date` is imported: the intended table selects the record, the table
    as written does not.
   */
  lemma GreaterOrEqualCounterexample(re: (string, string) -> bool, strptime: string -> Option<Date>)
    requires re("x", "x")
    ensures var w := Adapted(0, [SearchField("x", VInt(3))], NoDict(VInt(3)));
      var rel := LegacyRelation(re, Fields.Repaired(strptime));
      w in Eval(Expression(GreaterThanOrEqualExpression, "x", "3"), {w}, rel, Operator) &&
      w !in Eval(Expression(GreaterThanOrEqualExpression, "x", "3"), {w}, rel, OperatorAsWritten)
  {
    var f := SearchField("x", VInt(3));
    var rel := LegacyRelation(re, Fields.Repaired(strptime));
    ParseIntOfIntToString(3);
    assert Fields.Convert(VInt(3), VStr("3"), strptime) == Success(VInt(3));
    assert Order(VInt(3), VInt(3)) == Some(0);
    assert Fields.Compare(Ge, f, "x", VStr("3"), re, Fields.Repaired(strptime));
    assert !Fields.Compare(Gt, f, "x", VStr("3"), re, Fields.Repaired(strptime));
    assert rel(OpGe, f, "x", "3");
    assert !rel(OpGt, f, "x", "3");
    var w := Adapted(0, [f], NoDict(VInt(3)));
    assert w.fields[0] == f;
    assert AnyField(OpGe, w.fields, "x", "3", rel);
    assert !AnyField(OpGt, w.fields, "x", "3", rel);
  }

  /** __str__ of each node. */
  function Render(c: Condition): string {
    match c
    case NotStatement(d) => "[NOT " + Render(d) + "]"
    case AndStatement(c1, c2) => "[" + Render(c1) + " AND " + Render(c2) + "]"
    case OrStatement(c1, c2) => "[" + Render(c1) + " OR " + Render(c2) + "]"
    case Expression(kind, name, value) => "(" + name + " " + ExpressionName(kind) + " " + value + ")"
  }

  /** The stack check accepts every name and literal in the tree. */
  predicate OperandsAccepted(c: Condition) {
    match c
    case NotStatement(d) => OperandsAccepted(d)
    case AndStatement(c1, c2) => OperandsAccepted(c1) && OperandsAccepted(c2)
    case OrStatement(c1, c2) => OperandsAccepted(c1) && OperandsAccepted(c2)
    case Expression(_, name, value) => Accepts(name, 0) && Accepts(value, 0)
  }

  /**
    The rendering of a condition passes the query's parenthesis check: the
    logic nodes use brackets and every leaf is one group.
   */
  lemma {:induction false} RenderPassesValidation(c: Condition)
    requires OperandsAccepted(c)
    ensures Accepts(Render(c), 0)
  {
    match c
    case NotStatement(d) =>
      RenderPassesValidation(d);
      NegationAccepted(Render(d));
    case AndStatement(c1, c2) =>
      RenderPassesValidation(c1);
      RenderPassesValidation(c2);
      ConjunctionAccepted(Render(c1), Render(c2));
    case OrStatement(c1, c2) =>
      RenderPassesValidation(c1);
      RenderPassesValidation(c2);
      DisjunctionAccepted(Render(c1), Render(c2));
    case Expression(kind, name, value) =>
      ExpressionAccepted(kind, name, value);
  }

  /** One leaf renders as one group around its name, operator and literal. */
  lemma ExpressionAccepted(kind: ExprKind, name: string, value: string)
    requires Accepts(name, 0) && Accepts(value, 0)
    ensures Accepts(Render(Expression(kind, name, value)), 0)
  {
    GroupAccepted(name, " " + ExpressionName(kind) + " ", value);
    assert Render(Expression(kind, name, value)) == "(" + name + (" " + ExpressionName(kind) + " ") + value + ")";
  }

}
