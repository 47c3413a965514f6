/**
  search/field.py: the immutable Field of the newest code. Its convert_type is a
  context manager that yields the literal converted to the type of a sample
  value, or None when the conversion raises; the Field itself never changes.
 */
module PureField {
  import opened Wrappers
  import opened PyValues
  import opened Dates
  import SearchFields

  /** Field(name, value): the name passed through str(), the value a str. */
  datatype Field = Field(name: string, value: string)

  function NewField(name: Value, value: string): (f: Field)
    ensures f.name == Str(name) && f.value == value
  {
    Field(Str(name), value)
  }

  /**
    What `with field.convert_type(sample) as v:` binds to v: Date(literal) for
    a date sample, type(sample)(literal) otherwise, and None on an exception.
   */
  function ConvertType(f: Field, target: Value, strptime: string -> Option<Date>): (r: Value)
    ensures target.VStr? ==> r == VStr(f.value)
    ensures target.VBool? ==> r == VBool(f.value != "")
    ensures target.VInt? ==> r == (match ParseInt(f.value) case Some(n) => VInt(n) case None => VNone)
    ensures IsDateLike(target) ==>
      r == (if f.value == "" then VNone else match strptime(f.value) case Some(d) => VDate(d) case None => VNone)
    ensures target.VNone? ==> r == VNone
    ensures target.VList? ==> r == VList(Chars(f.value))
  {
    match SearchFields.Converted(target, VStr(f.value), strptime)
    case Success(v) => v
    case Failure(_) => VNone
  }

  /**
    Field.convert_type against the newer QueryField.convert_type: a QueryField
    built from the same name and literal converts to the value the Field
    yields, and where its conversion fails (leaving the literal in place) the
    Field yields None.
   */
  method ConvertTypeAgreesWithQueryField(name: Value, literal: string, target: Value,
                                         strptime: string -> Option<Date>) returns (ok: bool, converted: Value)
    ensures ConvertType(NewField(name, literal), target, strptime) == if ok then converted else VNone
    ensures !ok ==> converted == VStr(literal)
  {
    var q := new SearchFields.QueryField(name, literal);
    ok := q.ConvertType(target, strptime);
    converted := q.value;
  }

  /** An int field literal converts back to the int it renders. */
  lemma ConvertTypeIntRoundTrip(name: Value, i: int, target: Value, strptime: string -> Option<Date>)
    requires target.VInt?
    ensures ConvertType(NewField(name, IntToString(i)), target, strptime) == VInt(i)
  {
    ParseIntOfIntToString(i);
  }
}
