/**
  fields.py: the record field's comparison operators. Each operator first
  requires the query field's name pattern to regex-search the record field's
  name, then converts the query literal to the type of the record field's value
  by temporarily overwriting the QueryField's value, compares, and restores the
  value; any exception along the way makes the comparison False.

  `re` is re.search(pattern, text) and `strptime` the date-format loop. The
  conversion step is a parameter of the comparisons: `AsWritten()` is
  QueryField.__call__ as the code stands, which raises NameError on every call
  because `date` is never imported, and `Repaired(strptime)` is the same method
  with the import added.
 */
module Fields {
  import opened Wrappers
  import opened PyValues
  import opened Records
  import opened Dates

  /** The name a QueryField stores: the pattern with the case-insensitive flag in front. */
  function QueryName(name: string): (r: string)
    ensures |r| == |name| + 4 && r[..4] == "(?i)" && r[4..] == name
  {
    "(?i)" + name
  }

  /** QueryField.__call__ with `date` imported: type(target)(current), or Date(current) for a date target. */
  function Convert(target: Value, current: Value, strptime: string -> Option<Date>): Result<Value> {
    if IsDateLike(target) then RootDate(current, strptime) else Construct(target, current)
  }

  /**
    QueryField.__call__ as written: `date` is never imported, so evaluating
    isinstance(value, (date, datetime)) raises NameError before any conversion.
   */
  function ConvertAsWritten(target: Value, current: Value): (r: Result<Value>)
    ensures r.Failure?
  {
    Failure(NameError("date"))
  }

  /** One revision of QueryField.__call__: the converted literal for a target value, or the exception. */
  type Conversion = (Value, Value) -> Result<Value>

  /** QueryField.__call__ as written. */
  function AsWritten(): Conversion {
    (target: Value, current: Value) => ConvertAsWritten(target, current)
  }

  /** QueryField.__call__ with `date` imported. */
  function Repaired(strptime: string -> Option<Date>): Conversion {
    (target: Value, current: Value) => Convert(target, current, strptime)
  }

  /**
    verify_name_matches around convert_type around an operator body: False
    unless the names match, the conversion succeeded and the comparison
    returned True without raising.
   */
  function Decorated(op: CompareOp, field: SearchField, qname: string, converted: Result<Value>,
                     re: (string, string) -> bool): bool
  {
    re(qname, field.name) && converted.Success? && PyCompare(op, field.value, converted.value) == Success(true)
  }

  /** `field <op> query_field` for a query field holding qname and the literal qvalue. */
  function Compare(op: CompareOp, field: SearchField, qname: string, qvalue: Value,
                   re: (string, string) -> bool, convert: Conversion): bool
  {
    Decorated(op, field, qname, convert(field.value, qvalue), re)
  }

  /** BaseField.match: both the name pattern and str(query value) regex-search, with no conversion. */
  function Match(field: SearchField, qname: string, qvalue: Value, re: (string, string) -> bool): (b: bool)
    ensures b ==> re(qname, field.name)
  {
    re(qname, field.name) && re(Str(qvalue), Str(field.value))
  }

  /** No comparison and no match holds when the name pattern does not search the field's name. */
  lemma NameMismatchNeverMatches(op: CompareOp, field: SearchField, qname: string, qvalue: Value,
                                 re: (string, string) -> bool, convert: Conversion)
    requires !re(qname, field.name)
    ensures !Compare(op, field, qname, qvalue, re, convert)
    ensures !Match(field, qname, qvalue, re)
  {
  }

  /** A literal that cannot be converted makes the comparison False instead of raising. */
  lemma ConversionFailureNeverMatches(op: CompareOp, field: SearchField, qname: string, qvalue: Value,
                                      re: (string, string) -> bool, convert: Conversion)
    requires convert(field.value, qvalue).Failure?
    ensures !Compare(op, field, qname, qvalue, re, convert)
  {
  }

  /** As written, every ==, !=, <, <=, >, >= comparison is False, whatever the field and literal. */
  lemma AsWrittenNeverMatches(op: CompareOp, field: SearchField, qname: string, qvalue: Value,
                              re: (string, string) -> bool)
    ensures !Compare(op, field, qname, qvalue, re, AsWritten())
  {
  }

  /** Once the names match and the literal converts, exactly one of == and != holds. */
  lemma EqualXorNotEqual(field: SearchField, qname: string, qvalue: Value,
                         re: (string, string) -> bool, convert: Conversion)
    requires re(qname, field.name) && convert(field.value, qvalue).Success?
    ensures Compare(Ne, field, qname, qvalue, re, convert) == !Compare(Eq, field, qname, qvalue, re, convert)
  {
    PyCompareNotEqualIsNegation(field.value, convert(field.value, qvalue).value);
  }

  /**
    With `date` imported, an int or str field equals the literal that spells
    its own value: the conversion turns str(v) back into v.
   */
  lemma EqualsOwnRendering(field: SearchField, qname: string,
                           re: (string, string) -> bool, strptime: string -> Option<Date>)
    requires re(qname, field.name)
    requires field.value.VInt? || field.value.VStr?
    ensures Compare(Eq, field, qname, VStr(Str(field.value)), re, Repaired(strptime))
  {
    if field.value.VInt? {
      ParseIntOfIntToString(field.value.i);
    } else {
      PyCompareReflexive(field.value);
    }
  }

  /**
    The missing import in action: `x = 3` matches a field x holding 3 once
    `date` is imported, and does not as written.
   */
  lemma MissingDateImportCounterexample(re: (string, string) -> bool, strptime: string -> Option<Date>)
    requires re(QueryName("x"), "x")
    ensures Compare(Eq, SearchField("x", VInt(3)), QueryName("x"), VStr("3"), re, Repaired(strptime))
    ensures !Compare(Eq, SearchField("x", VInt(3)), QueryName("x"), VStr("3"), re, AsWritten())
  {
    EqualsOwnRendering(SearchField("x", VInt(3)), QueryName("x"), re, strptime);
  }

  /**
    QueryField: a field whose value starts as the query literal. A comparison
    overwrites the value with the converted literal between __enter__ (which
    saves it in __orig_val) and __exit__ (which writes it back).
   */
  class QueryField {
    var name: string
    var value: Value
    var origVal: Option<Value>   // __orig_val; absent until __enter__ has run

    /** QueryField(name, value) with value a str (the assert in __init__). */
    constructor(name: string, value: string)
      ensures this.name == QueryName(name) && this.value == VStr(value) && origVal == None
    {
      this.name := QueryName(name);
      this.value := VStr(value);
      origVal := None;
    }

    /**
      __call__ in the revision `convert`: overwrite the value with the
      converted one; on an exception leave it. As written (AsWritten()) every
      call raises NameError and the value stays the literal.
     */
    method Call(target: Value, convert: Conversion) returns (err: Option<PyError>)
      modifies this`value
      ensures convert(target, old(value)).Success? ==>
        err == None && value == convert(target, old(value)).value
      ensures convert(target, old(value)).Failure? ==>
        err == Some(convert(target, old(value)).error) && value == old(value)
    {
      match convert(target, value)
      case Success(v) =>
        value := v;
        err := None;
      case Failure(e) =>
        err := Some(e);
    }

    /** __enter__: remember the current value. */
    method Enter()
      modifies this`origVal
      ensures origVal == Some(value)
    {
      origVal := Some(value);
    }

    /** __exit__: restore the remembered value; before any __enter__ the attribute lookup fails. */
    method Exit() returns (err: Option<PyError>)
      modifies this`value
      ensures old(origVal).None? ==> err == Some(AttributeError) && value == old(value)
      ensures old(origVal).Some? ==> err == None && value == old(origVal).value
    {
      if origVal.None? {
        err := Some(AttributeError);
      } else {
        value := origVal.value;
        err := None;
      }
    }

    /**
      `field <op> self` through the decorators: the name check, then
      `with self: return op(field, self(field.value))`, with any exception
      answered by False. The comparison is the pure Compare of the value held
      before the call, and that value is back in place afterwards; as written
      (AsWritten()) the answer is always False.
     */
    method CompareWith(field: SearchField, op: CompareOp,
                       re: (string, string) -> bool, convert: Conversion) returns (b: bool)
      modifies this`value, this`origVal
      ensures b == Compare(op, field, name, old(value), re, convert)
      ensures convert == AsWritten() ==> !b
      ensures value == old(value)
      ensures origVal == if re(name, field.name) then Some(old(value)) else old(origVal)
    {
      if !re(name, field.name) {
        return false;
      }
      Enter();
      var err := Call(field.value, convert);
      if err.Some? {
        var _ := Exit();
        return false;
      }
      var outcome := PyCompare(op, field.value, value);
      var _ := Exit();
      b := outcome == Success(true);
    }
  }
}
