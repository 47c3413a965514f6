/**
  query.py: the root query facade. Every query string, the empty one included,
  is validated and compiled; calling the query applies the condition to the
  set of adapted records. The ply grammar behind `compile` is the parameter
  `compile`; the revision of QueryField.__call__ the comparisons use is the
  parameter `convert`.
 */
module RootQuery {
  import opened Wrappers
  import opened PyValues
  import opened Records
  import opened Validation
  import opened Conditions
  import opened Fields
  import ConvertableTypes

  /** A built query always holds a condition. */
  datatype Query = Query(condition: Condition)

  const UnbalancedMessage: string := "Unbalanced parenthesis"

  /** Query(query_str): the query built, or the InvalidQueryError raised. */
  function QueryOf(s: string, compile: string -> Option<Condition>): (r: Result<Query>)
    ensures r.Success? ==> compile(s) == Some(r.value.condition)
    ensures r.Failure? ==> r.error.InvalidQueryError?
  {
    if !Accepts(s, 0) then Failure(InvalidQueryError(UnbalancedMessage))
    else match compile(s)
      case None => Failure(InvalidQueryError(InvalidQueryMessage(s)))
      case Some(c) => Success(Query(c))
  }

  /** __init__: run the stack check, then compile. */
  method NewQuery(s: string, compile: string -> Option<Condition>) returns (r: Result<Query>)
    ensures r == QueryOf(s, compile)
  {
    var ok := CheckBalanced(s);
    AcceptsIffBalanced(s);
    if !ok {
      return Failure(InvalidQueryError(UnbalancedMessage));
    }
    var condition := compile(s);
    if condition.None? {
      return Failure(InvalidQueryError(InvalidQueryMessage(s)));
    }
    r := Success(Query(condition.value));
  }

  /** Building fails with 'Unbalanced parenthesis' exactly for the unbalanced strings. */
  lemma UnbalancedRejected(s: string, compile: string -> Option<Condition>)
    ensures QueryOf(s, compile) == Failure(InvalidQueryError(UnbalancedMessage)) <==> !Balanced(s)
  {
    AcceptsIffBalanced(s);
    if Balanced(s) && compile(s).None? {
      assert InvalidQueryMessage(s) != UnbalancedMessage by {
        assert InvalidQueryMessage(s)[0] == 'I' && UnbalancedMessage[0] == 'U';
      }
    }
  }

  /** An unbalanced query never reaches compile: building it does not depend on the grammar. */
  lemma UnbalancedNeverCompiled(s: string, compile1: string -> Option<Condition>, compile2: string -> Option<Condition>)
    requires !Balanced(s)
    ensures QueryOf(s, compile1) == QueryOf(s, compile2)
  {
    AcceptsIffBalanced(s);
  }

  /** The empty query is not special here: it builds exactly when the grammar compiles it. */
  lemma EmptyQueryIsCompiled(compile: string -> Option<Condition>)
    ensures QueryOf("", compile).Success? <==> compile("").Some?
    ensures compile("").None? ==> QueryOf("", compile) == Failure(InvalidQueryError(InvalidQueryMessage("")))
  {
  }

  /** A balanced query the grammar rejects raises InvalidQueryError quoting it without newlines. */
  lemma CompileFailureQuoted(s: string, compile: string -> Option<Condition>)
    requires Balanced(s) && compile(s).None?
    ensures QueryOf(s, compile) == Failure(InvalidQueryError(InvalidQueryMessage(s)))
  {
    AcceptsIffBalanced(s);
  }

  /** The function __call__ runs on the wrapped records: the condition on set(values). */
  function Body(q: Query, re: (string, string) -> bool, convert: Conversion): set<Adapted> -> set<Adapted> {
    values => Eval(q.condition, values, re, convert)
  }

  /** __call__ under implicit_conversion. */
  function Call(q: Query, arg: Argument, re: (string, string) -> bool, convert: Conversion): Result<seq<HostObject>> {
    ConvertableTypes.ImplicitConversion(arg, Body(q, re, convert))
  }

  /**
    The call returns one object per selected wrapper, and an object is
    returned exactly when some element satisfying the condition is that object.
   */
  lemma CallSelects(q: Query, arg: Argument, re: (string, string) -> bool, convert: Conversion)
    requires ConvertableTypes.IsCollection(arg)
    requires WrapAll(Elements(arg), ConvertableTypes.FieldsOf, 0).Success?
    ensures var ws := WrapAll(Elements(arg), ConvertableTypes.FieldsOf, 0).value;
      var r := Call(q, arg, re, convert);
      r.Success? &&
      |r.value| == |Eval(q.condition, (set w | w in ws), re, convert)| &&
      forall x :: x in r.value <==>
        exists k :: 0 <= k < |ws| && Holds(q.condition, ws[k], re, convert) && Elements(arg)[k] == x
  {
    var ws := WrapAll(Elements(arg), ConvertableTypes.FieldsOf, 0).value;
    var all := set w | w in ws;
    forall w ensures w in Eval(q.condition, all, re, convert) <==> w in ws && HoldsOf(q.condition, re, convert)(w) {
      EvalPointwise(q.condition, all, re, convert, w);
    }
    ConvertWrappedFilters(Elements(arg), ConvertableTypes.FieldsOf, Body(q, re, convert), HoldsOf(q.condition, re, convert));
  }

  function HoldsOf(c: Condition, re: (string, string) -> bool, convert: Conversion): Adapted -> bool {
    w => Holds(c, w, re, convert)
  }

  /**
    As written, a query whose condition is one comparison (any class but
    LIKE) returns an empty list for every collection of records.
   */
  lemma AsWrittenComparisonFindsNothing(kind: ExprKind, lhs: string, rhs: string, arg: Argument,
                                        re: (string, string) -> bool)
    requires kind != LikeExpression
    requires ConvertableTypes.IsCollection(arg)
    requires WrapAll(Elements(arg), ConvertableTypes.FieldsOf, 0).Success?
    ensures Call(Query(Expression(kind, lhs, rhs)), arg, re, AsWritten()) == Success([])
  {
    var q := Query(Expression(kind, lhs, rhs));
    var ws := WrapAll(Elements(arg), ConvertableTypes.FieldsOf, 0).value;
    CallSelects(q, arg, re, AsWritten());
    forall k | 0 <= k < |ws| ensures !Holds(q.condition, ws[k], re, AsWritten()) {
      AsWrittenComparisonSelectsNothing(kind, lhs, rhs, {ws[k]}, re);
      EvalPointwise(q.condition, {ws[k]}, re, AsWritten(), ws[k]);
    }
  }

  /**
    __str__: 'QUERY: ' and the condition's rendering, which passes the
    parenthesis check again whenever the condition's operands do.
   */
  function Str(q: Query): (r: string)
    ensures |r| >= 7 && r[..7] == "QUERY: " && r[7..] == Render(q.condition)
    ensures OperandsAccepted(q.condition) ==> Accepts(r[7..], 0)
  {
    if OperandsAccepted(q.condition) then
      RenderPassesValidation(q.condition);
      "QUERY: " + Render(q.condition)
    else
      "QUERY: " + Render(q.condition)
  }
}
