/**
  search/query.py: the newer query facade. Building a Query validates and
  compiles the query string unless it is empty or "*"; calling it applies the
  condition (or nothing) to the adapted records. The ply grammar behind
  `compile` is the parameter `compile`; the leaf relation and the OPERATOR
  table are the parameters `rel` and `ops` of SearchConditions.
 */
module SearchQuery {
  import opened Wrappers
  import opened Records
  import opened Validation
  import opened SearchConditions
  import SearchConvertableTypes

  /** A built query: the compiled condition, or None for "" and "*". */
  datatype Query = Query(condition: Option<Condition>)

  const UnbalancedMessage: string := "Unbalanced parenthesis"

  /** Query(query_str): the query built, or the InvalidQueryError raised. */
  function QueryOf(s: string, compile: string -> Option<Condition>): (r: Result<Query>)
    ensures r.Success? ==> (r.value.condition.None? <==> s == "" || s == "*")
    ensures r.Failure? ==> r.error.InvalidQueryError?
  {
    if s == "" || s == "*" then Success(Query(None))
    else if !Accepts(s, 0) then Failure(InvalidQueryError(UnbalancedMessage))
    else match compile(s)
      case None => Failure(InvalidQueryError(InvalidQueryMessage(s)))
      case Some(c) => Success(Query(Some(c)))
  }

  /** __init__: skip "" and "*", run the stack check, then compile. */
  method NewQuery(s: string, compile: string -> Option<Condition>) returns (r: Result<Query>)
    ensures r == QueryOf(s, compile)
  {
    if s == "" || s == "*" {
      return Success(Query(None));
    }
    var ok := CheckBalanced(s);
    AcceptsIffBalanced(s);
    if !ok {
      return Failure(InvalidQueryError(UnbalancedMessage));
    }
    var condition := compile(s);
    if condition.None? {
      return Failure(InvalidQueryError(InvalidQueryMessage(s)));
    }
    r := Success(Query(condition));
  }

  /** Building fails with 'Unbalanced parenthesis' exactly for the unbalanced strings other than "" and "*". */
  lemma UnbalancedRejected(s: string, compile: string -> Option<Condition>)
    requires s != "" && s != "*"
    ensures QueryOf(s, compile) == Failure(InvalidQueryError(UnbalancedMessage)) <==> !Balanced(s)
  {
    AcceptsIffBalanced(s);
    if Balanced(s) && compile(s).None? {
      assert InvalidQueryMessage(s) != UnbalancedMessage by {
        assert InvalidQueryMessage(s)[0] == 'I' && UnbalancedMessage[0] == 'U';
      }
    }
  }

  /** An unbalanced query never reaches compile: building it does not depend on the grammar. */
  lemma UnbalancedNeverCompiled(s: string, compile1: string -> Option<Condition>, compile2: string -> Option<Condition>)
    requires !Balanced(s)
    ensures QueryOf(s, compile1) == QueryOf(s, compile2)
  {
    AcceptsIffBalanced(s);
  }

  /** A balanced query the grammar rejects raises InvalidQueryError quoting it without newlines. */
  lemma CompileFailureQuoted(s: string, compile: string -> Option<Condition>)
    requires s != "" && s != "*" && Balanced(s) && compile(s).None?
    ensures QueryOf(s, compile) == Failure(InvalidQueryError(InvalidQueryMessage(s)))
  {
    AcceptsIffBalanced(s);
  }

  function Identity(values: set<Adapted>): set<Adapted> {
    values
  }

  function Apply(c: Condition, rel: Relation, ops: OperatorTable): set<Adapted> -> set<Adapted> {
    values => Eval(c, values, rel, ops)
  }

  /** The function __call__ runs on the wrapped records. */
  function Body(q: Query, rel: Relation, ops: OperatorTable): set<Adapted> -> set<Adapted> {
    match q.condition
    case None => Identity
    case Some(c) => Apply(c, rel, ops)
  }

  /** __call__ under implicit_conversion. */
  function Call(q: Query, arg: Argument, rel: Relation, ops: OperatorTable): Result<seq<HostObject>> {
    SearchConvertableTypes.ImplicitConversion(arg, Body(q, rel, ops))
  }

  /** A query without condition hands back every element, equal ones included, in input order. */
  lemma NoConditionReturnsEverything(q: Query, arg: Argument, rel: Relation, ops: OperatorTable)
    requires q.condition.None?
    requires SearchConvertableTypes.IsCollection(arg)
    requires WrapAll(Elements(arg), SearchConvertableTypes.FieldsOf, 0).Success?
    ensures Call(q, arg, rel, ops) == Success(Elements(arg))
  {
    ConvertWrappedKeepsEveryElement(Elements(arg), SearchConvertableTypes.FieldsOf, Body(q, rel, ops));
  }

  /**
    With a condition, the call returns one object per selected wrapper, and
    an object is returned exactly when some element satisfying the
    condition is that object.
   */
  lemma ConditionSelects(c: Condition, arg: Argument, rel: Relation, ops: OperatorTable)
    requires SearchConvertableTypes.IsCollection(arg)
    requires WrapAll(Elements(arg), SearchConvertableTypes.FieldsOf, 0).Success?
    ensures var ws := WrapAll(Elements(arg), SearchConvertableTypes.FieldsOf, 0).value;
      var r := Call(Query(Some(c)), arg, rel, ops);
      r.Success? &&
      |r.value| == |Eval(c, (set w | w in ws), rel, ops)| &&
      forall x :: x in r.value <==> exists k :: 0 <= k < |ws| && Holds(c, ws[k], rel, ops) && Elements(arg)[k] == x
  {
    var ws := WrapAll(Elements(arg), SearchConvertableTypes.FieldsOf, 0).value;
    var func := Body(Query(Some(c)), rel, ops);
    ApplySelectsHolding(c, ws, rel, ops);
    assert func == Apply(c, rel, ops);
    ConvertWrappedFilters(Elements(arg), SearchConvertableTypes.FieldsOf, func, HoldsOf(c, rel, ops));
  }

  /** Applying a condition to a set of wrappers keeps exactly those of which it holds. */
  lemma ApplySelectsHolding(c: Condition, ws: seq<Adapted>, rel: Relation, ops: OperatorTable)
    ensures forall w :: w in Apply(c, rel, ops)(set w | w in ws) <==> w in ws && HoldsOf(c, rel, ops)(w)
  {
    var all := set w | w in ws;
    forall w ensures w in Apply(c, rel, ops)(all) <==> w in ws && HoldsOf(c, rel, ops)(w) {
      EvalPointwise(c, all, rel, ops, w);
    }
  }

  function HoldsOf(c: Condition, rel: Relation, ops: OperatorTable): Adapted -> bool {
    w => Holds(c, w, rel, ops)
  }

  /**
    query(query_str, values): build, then call. A query that does not build
    raises what building raised; one that builds raises ValueError on a str or
    a scalar; on a collection, "" and "*" find every element and a compiled
    condition finds exactly the elements it holds of.
   */
  function Search(s: string, arg: Argument, compile: string -> Option<Condition>, rel: Relation, ops: OperatorTable): (r: Result<seq<HostObject>>)
    ensures QueryOf(s, compile).Failure? ==> r == Failure(QueryOf(s, compile).error)
    ensures QueryOf(s, compile).Success? && !SearchConvertableTypes.IsCollection(arg) ==> r == Failure(ValueError)
    ensures (s == "" || s == "*") && SearchConvertableTypes.IsCollection(arg) &&
            WrapAll(Elements(arg), SearchConvertableTypes.FieldsOf, 0).Success? ==>
      r == Success(Elements(arg))
    ensures QueryOf(s, compile).Success? && QueryOf(s, compile).value.condition.Some? &&
            SearchConvertableTypes.IsCollection(arg) &&
            WrapAll(Elements(arg), SearchConvertableTypes.FieldsOf, 0).Success? ==>
      var c := QueryOf(s, compile).value.condition.value;
      var ws := WrapAll(Elements(arg), SearchConvertableTypes.FieldsOf, 0).value;
      r.Success? &&
      forall x :: x in r.value <==> exists k :: 0 <= k < |ws| && Holds(c, ws[k], rel, ops) && Elements(arg)[k] == x
  {
    match QueryOf(s, compile)
    case Failure(e) => Failure(e)
    case Success(q) =>
      if !SearchConvertableTypes.IsCollection(arg) || WrapAll(Elements(arg), SearchConvertableTypes.FieldsOf, 0).Failure? then
        Call(q, arg, rel, ops)
      else if q.condition.None? then
        NoConditionReturnsEverything(q, arg, rel, ops);
        Call(q, arg, rel, ops)
      else
        ConditionSelects(q.condition.value, arg, rel, ops);
        Call(q, arg, rel, ops)
  }

  /**
    __str__: 'QUERY: ' and the condition's rendering, or None; what follows
    the prefix passes the parenthesis check again whenever the condition's
    operands do.
   */
  function Str(q: Query): (r: string)
    ensures |r| >= 7 && r[..7] == "QUERY: "
    ensures q.condition.None? ==> r[7..] == "None"
    ensures q.condition.Some? ==> r[7..] == Render(q.condition.value)
    ensures (q.condition.None? || OperandsAccepted(q.condition.value)) ==> Accepts(r[7..], 0)
  {
    match q.condition
    case None =>
      AcceptsWithoutParentheses("None");
      "QUERY: None"
    case Some(c) =>
      if OperandsAccepted(c) then
        RenderPassesValidation(c);
        "QUERY: " + Render(c)
      else
        "QUERY: " + Render(c)
  }
}
