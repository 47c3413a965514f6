/**
  conditions.py: the root condition tree. NOT, AND and OR are set algebra over
  the working set of adapted records; a comparison leaf holds a QueryField
  built from its two operands and keeps the records for which any field
  compares (or, for LIKE, matches) against it, using the operators of
  fields.py. The evaluator takes the revision of QueryField.__call__ as the
  parameter `convert` (Fields.AsWritten() or Fields.Repaired(strptime)).
 */
module Conditions {
  import opened Wrappers
  import opened PyValues
  import opened Records
  import opened Validation
  import opened Fields

  /** The expression classes; this generation has no != expression. */
  datatype ExprKind =
    | EqualityExpression | LikeExpression
    | LessThanExpression | LessThanOrEqualExpression
    | GreaterThanExpression | GreaterThanOrEqualExpression

  /** A condition tree; an Expression keeps the operands it built its QueryField from. */
  datatype Condition =
    | NotCondition(condition: Condition)
    | AndCondition(condition1: Condition, condition2: Condition)
    | OrCondition(condition1: Condition, condition2: Condition)
    | Expression(kind: ExprKind, lhs: string, rhs: string)

  /** The class attribute OPERATOR, which only __str__ uses; none holds a parenthesis. */
  function OperatorName(kind: ExprKind): (r: string)
    ensures 0 < |r| <= 4 && forall k :: 0 <= k < |r| ==> !IsParen(r[k])
  {
    match kind
    case EqualityExpression => "="
    case LikeExpression => "LIKE"
    case LessThanExpression => "<"
    case LessThanOrEqualExpression => "<="
    case GreaterThanExpression => ">"
    case GreaterThanOrEqualExpression => ">="
  }

  /** The Python comparison each non-LIKE class applies to a field and the query field. */
  function ComparisonOf(kind: ExprKind): CompareOp
    requires kind != LikeExpression
  {
    match kind
    case EqualityExpression => Eq
    case LessThanExpression => Lt
    case LessThanOrEqualExpression => Le
    case GreaterThanExpression => Gt
    case GreaterThanOrEqualExpression => Ge
  }

  /** One field against the query field (name qname, literal qvalue): `f == q`, `f < q`, ... or `f.match(q)`. */
  predicate FieldTest(kind: ExprKind, f: SearchField, qname: string, qvalue: Value,
                      re: (string, string) -> bool, convert: Conversion)
  {
    if kind == LikeExpression then Match(f, qname, qvalue, re)
    else Compare(ComparisonOf(kind), f, qname, qvalue, re, convert)
  }

  /** The leaf's search_func: any field of the record passes the test. */
  predicate Selects(kind: ExprKind, lhs: string, rhs: string, v: Adapted,
                    re: (string, string) -> bool, convert: Conversion)
  {
    exists k :: 0 <= k < |v.fields| && FieldTest(kind, v.fields[k], QueryName(lhs), VStr(rhs), re, convert)
  }

  function SearchFunc(kind: ExprKind, lhs: string, rhs: string,
                      re: (string, string) -> bool, convert: Conversion): Adapted -> bool
  {
    v => Selects(kind, lhs, rhs, v, re, convert)
  }

  /** Condition.__call__(values). */
  function Eval(c: Condition, values: set<Adapted>, re: (string, string) -> bool, convert: Conversion): (r: set<Adapted>)
    ensures r <= values
  {
    match c
    case NotCondition(d) => values - (values * Eval(d, values, re, convert))
    case AndCondition(c1, c2) => Eval(c1, values, re, convert) * Eval(c2, values, re, convert)
    case OrCondition(c1, c2) => Eval(c1, values, re, convert) + Eval(c2, values, re, convert)
    case Expression(kind, lhs, rhs) => set v | v in values && Selects(kind, lhs, rhs, v, re, convert)
  }

  /** Whether one record satisfies a condition on its own. */
  predicate Holds(c: Condition, v: Adapted, re: (string, string) -> bool, convert: Conversion) {
    match c
    case NotCondition(d) => !Holds(d, v, re, convert)
    case AndCondition(c1, c2) => Holds(c1, v, re, convert) && Holds(c2, v, re, convert)
    case OrCondition(c1, c2) => Holds(c1, v, re, convert) || Holds(c2, v, re, convert)
    case Expression(kind, lhs, rhs) => Selects(kind, lhs, rhs, v, re, convert)
  }

  /** A record is selected exactly when it is in the working set and satisfies the condition on its own. */
  lemma {:induction false} EvalPointwise(c: Condition, values: set<Adapted>, re: (string, string) -> bool,
                                         convert: Conversion, v: Adapted)
    ensures v in Eval(c, values, re, convert) <==> v in values && Holds(c, v, re, convert)
  {
    match c
    case NotCondition(d) =>
      EvalPointwise(d, values, re, convert, v);
    case AndCondition(c1, c2) =>
      EvalPointwise(c1, values, re, convert, v);
      EvalPointwise(c2, values, re, convert, v);
    case OrCondition(c1, c2) =>
      EvalPointwise(c1, values, re, convert, v);
      EvalPointwise(c2, values, re, convert, v);
    case Expression(_, _, _) =>
  }

  /** Evaluating on a smaller working set gives the larger result cut down to it. */
  lemma EvalRestricts(c: Condition, small: set<Adapted>, large: set<Adapted>,
                      re: (string, string) -> bool, convert: Conversion)
    requires small <= large
    ensures Eval(c, small, re, convert) == Eval(c, large, re, convert) * small
  {
    forall v ensures v in Eval(c, small, re, convert) <==> v in Eval(c, large, re, convert) * small {
      EvalPointwise(c, small, re, convert, v);
      EvalPointwise(c, large, re, convert, v);
    }
  }

  /** NOT is the working set minus the inner condition's result. */
  lemma NotIsComplement(c: Condition, values: set<Adapted>, re: (string, string) -> bool, convert: Conversion)
    ensures Eval(NotCondition(c), values, re, convert) == values - Eval(c, values, re, convert)
  {
  }

  /** Negating a condition twice gives back its result. */
  lemma DoubleNegation(c: Condition, values: set<Adapted>, re: (string, string) -> bool, convert: Conversion)
    ensures Eval(NotCondition(NotCondition(c)), values, re, convert) == Eval(c, values, re, convert)
  {
  }

  lemma AndCommutative(c1: Condition, c2: Condition, values: set<Adapted>,
                       re: (string, string) -> bool, convert: Conversion)
    ensures Eval(AndCondition(c1, c2), values, re, convert) == Eval(AndCondition(c2, c1), values, re, convert)
  {
  }

  lemma OrCommutative(c1: Condition, c2: Condition, values: set<Adapted>,
                      re: (string, string) -> bool, convert: Conversion)
    ensures Eval(OrCondition(c1, c2), values, re, convert) == Eval(OrCondition(c2, c1), values, re, convert)
  {
  }

  lemma AndOrIdempotent(c: Condition, values: set<Adapted>, re: (string, string) -> bool, convert: Conversion)
    ensures Eval(AndCondition(c, c), values, re, convert) == Eval(c, values, re, convert)
    ensures Eval(OrCondition(c, c), values, re, convert) == Eval(c, values, re, convert)
  {
  }

  /**
    With `date` imported, `lhs = rhs` selects every record of the working set
    with a field whose name the pattern searches and whose int or str value
    renders as rhs.
   */
  lemma EqualitySelectsOwnRendering(lhs: string, values: set<Adapted>, v: Adapted, k: nat,
                                    re: (string, string) -> bool, strptime: string -> Option<Date>)
    requires v in values && k < |v.fields|
    requires re(QueryName(lhs), v.fields[k].name)
    requires v.fields[k].value.VInt? || v.fields[k].value.VStr?
    ensures v in Eval(Expression(EqualityExpression, lhs, Str(v.fields[k].value)), values, re, Repaired(strptime))
  {
    EqualsOwnRendering(v.fields[k], QueryName(lhs), re, strptime);
  }

  /**
    As written, a comparison leaf (every class but LIKE) selects nothing, so
    only LIKE leaves, and NOT above them, can select a record.
   */
  lemma AsWrittenComparisonSelectsNothing(kind: ExprKind, lhs: string, rhs: string, values: set<Adapted>,
                                          re: (string, string) -> bool)
    requires kind != LikeExpression
    ensures Eval(Expression(kind, lhs, rhs), values, re, AsWritten()) == {}
  {
    forall v | v in values ensures !Selects(kind, lhs, rhs, v, re, AsWritten()) {
      forall k | 0 <= k < |v.fields| ensures !FieldTest(kind, v.fields[k], QueryName(lhs), VStr(rhs), re, AsWritten()) {
        AsWrittenNeverMatches(ComparisonOf(kind), v.fields[k], QueryName(lhs), VStr(rhs), re);
      }
    }
  }

  /** LIKE converts nothing, so it selects the same records in every revision of the conversion. */
  lemma LikeIgnoresConversion(lhs: string, rhs: string, values: set<Adapted>,
                              re: (string, string) -> bool, convert1: Conversion, convert2: Conversion)
    ensures Eval(Expression(LikeExpression, lhs, rhs), values, re, convert1) ==
            Eval(Expression(LikeExpression, lhs, rhs), values, re, convert2)
  {
  }

  /** No leaf selects a record none of whose field names the pattern searches. */
  lemma UnmatchedNameSelectsNothing(kind: ExprKind, lhs: string, rhs: string, v: Adapted,
                                    re: (string, string) -> bool, convert: Conversion)
    requires forall k :: 0 <= k < |v.fields| ==> !re(QueryName(lhs), v.fields[k].name)
    ensures !Selects(kind, lhs, rhs, v, re, convert)
  {
  }

  /** _get_values: add to a fresh set every element of `values` that search_func accepts. */
  method GetValues<T>(values: set<T>, searchFunc: T -> bool) returns (results: set<T>)
    ensures forall v :: v in results <==> v in values && searchFunc(v)
  {
    results := {};
    var remaining := values;
    while remaining != {}
      invariant remaining <= values
      invariant forall v :: v in results <==> v in values - remaining && searchFunc(v)
      decreases |remaining|
    {
      var v :| v in remaining;
      if searchFunc(v) {
        results := results + {v};
      }
      remaining := remaining - {v};
    }
  }

  /** A leaf's __call__: _get_values with the leaf's search_func. */
  method ExpressionCall(kind: ExprKind, lhs: string, rhs: string, values: set<Adapted>,
                        re: (string, string) -> bool, convert: Conversion) returns (results: set<Adapted>)
    ensures results == Eval(Expression(kind, lhs, rhs), values, re, convert)
  {
    results := GetValues(values, SearchFunc(kind, lhs, rhs, re, convert));
  }

  /**
    The search_func generator on the leaf's QueryField object: `f == q` (or
    `<`, ... or `f.match(q)`) for each field in order, stopping at the first
    True. Each comparison converts and restores the query field's value, so
    the answer is Selects of the literal and the literal is intact afterwards.
   */
  method AnyFieldWith(q: QueryField, kind: ExprKind, fields: seq<SearchField>,
                      re: (string, string) -> bool, convert: Conversion) returns (found: bool)
    modifies q`value, q`origVal
    ensures found <==> exists k :: 0 <= k < |fields| && FieldTest(kind, fields[k], q.name, old(q.value), re, convert)
    ensures q.value == old(q.value)
  {
    for i := 0 to |fields|
      invariant q.value == old(q.value)
      invariant forall k :: 0 <= k < i ==> !FieldTest(kind, fields[k], q.name, q.value, re, convert)
    {
      var b;
      if kind == LikeExpression {
        b := Match(fields[i], q.name, q.value, re);
      } else {
        b := q.CompareWith(fields[i], ComparisonOf(kind), re, convert);
      }
      if b {
        return true;
      }
    }
    return false;
  }

  /** __str__ of each node; a leaf shows its QueryField's name, flag included. */
  function Render(c: Condition): string {
    match c
    case NotCondition(d) => "[NOT " + Render(d) + "]"
    case AndCondition(c1, c2) => "[" + Render(c1) + " AND " + Render(c2) + "]"
    case OrCondition(c1, c2) => "[" + Render(c1) + " OR " + Render(c2) + "]"
    case Expression(kind, lhs, rhs) => "(" + QueryName(lhs) + " " + OperatorName(kind) + " " + rhs + ")"
  }

  /** The stack check accepts every operand in the tree. */
  predicate OperandsAccepted(c: Condition) {
    match c
    case NotCondition(d) => OperandsAccepted(d)
    case AndCondition(c1, c2) => OperandsAccepted(c1) && OperandsAccepted(c2)
    case OrCondition(c1, c2) => OperandsAccepted(c1) && OperandsAccepted(c2)
    case Expression(_, lhs, rhs) => Accepts(lhs, 0) && Accepts(rhs, 0)
  }

  lemma QueryNameAccepted(lhs: string)
    requires Accepts(lhs, 0)
    ensures Accepts(QueryName(lhs), 0)
  {
    assert (")" + lhs)[1..] == lhs;
    assert Accepts(")" + lhs, 1);
    assert ("i)" + lhs)[1..] == ")" + lhs;
    assert Accepts("i)" + lhs, 1);
    assert ("?i)" + lhs)[1..] == "i)" + lhs;
    assert Accepts("?i)" + lhs, 1);
    assert QueryName(lhs)[1..] == "?i)" + lhs;
  }

  /** The rendering of a condition, "(?i)" flags included, passes the query's parenthesis check. */
  lemma {:induction false} RenderPassesValidation(c: Condition)
    requires OperandsAccepted(c)
    ensures Accepts(Render(c), 0)
  {
    match c
    case NotCondition(d) =>
      RenderPassesValidation(d);
      NegationAccepted(Render(d));
    case AndCondition(c1, c2) =>
      RenderPassesValidation(c1);
      RenderPassesValidation(c2);
      ConjunctionAccepted(Render(c1), Render(c2));
    case OrCondition(c1, c2) =>
      RenderPassesValidation(c1);
      RenderPassesValidation(c2);
      DisjunctionAccepted(Render(c1), Render(c2));
    case Expression(kind, lhs, rhs) =>
      ExpressionAccepted(kind, lhs, rhs);
  }

  /** One leaf renders as one group around the "(?i)" name pattern, operator and literal. */
  lemma ExpressionAccepted(kind: ExprKind, lhs: string, rhs: string)
    requires Accepts(lhs, 0) && Accepts(rhs, 0)
    ensures Accepts(Render(Expression(kind, lhs, rhs)), 0)
  {
    QueryNameAccepted(lhs);
    GroupAccepted(QueryName(lhs), " " + OperatorName(kind) + " ", rhs);
    assert Render(Expression(kind, lhs, rhs)) == "(" + QueryName(lhs) + (" " + OperatorName(kind) + " ") + rhs + ")";
  }

}
