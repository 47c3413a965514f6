/**
  search/decorators.py: validate_query, the decorator that checks a query
  string's parentheses before calling the decorated function. The module
  raises InvalidQueryError without importing it, so an unbalanced string
  aborts the call with NameError.
 */
module Decorators {
  import opened Wrappers
  import opened Validation

  /** What `raise InvalidQueryError(...)` raises in a module where that name is not bound. */
  const UnboundErrorName: PyError := NameError("InvalidQueryError")

  /** _validate: the stack loop; an unbalanced string raises. */
  method CheckQuery(s: string) returns (outcome: Outcome)
    ensures outcome == Pass <==> Balanced(s)
    ensures outcome != Pass ==> outcome == Fail(UnboundErrorName)
  {
    var ok := CheckBalanced(s);
    if ok {
      outcome := Pass;
    } else {
      outcome := Fail(UnboundErrorName);
    }
  }

  /**
    wrapper(query_str, *args): validate, then call func with the same
    arguments and return its result; func is not called on an unbalanced string.
   */
  method ValidateQuery<A, R>(func: (string, A) -> R, s: string, args: A) returns (r: Result<R>)
    ensures Balanced(s) ==> r == Success(func(s, args))
    ensures !Balanced(s) ==> r == Failure(UnboundErrorName)
  {
    var outcome := CheckQuery(s);
    if outcome.Fail? {
      return Failure(outcome.error);
    }
    r := Success(func(s, args));
  }
}
