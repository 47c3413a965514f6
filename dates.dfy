/**
  The `Date` helpers of both generations. Each tries a fixed list of strptime
  formats; the format loop (and, in the newer one, replacing a parsed year 1900
  by the current year) is the parameter `strptime`, which answers None when no
  format parses.
 */
module Dates {
  import opened Wrappers
  import opened PyValues

  /**
    Date in fields.py: strptime on a non-str raises TypeError; a str that a
    format parses gives the datetime at midnight of that day (not a date); a
    str that no format parses falls off the end of the loop and gives None.
   */
  function RootDate(arg: Value, strptime: string -> Option<Date>): (r: Result<Value>)
    ensures r.Failure? <==> !arg.VStr?
    ensures arg.VStr? && strptime(arg.s).None? ==> r == Success(VNone)
    ensures arg.VStr? && strptime(arg.s).Some? ==> r == Success(VDateTime(strptime(arg.s).value, 0))
  {
    if !arg.VStr? then Failure(TypeError)
    else match strptime(arg.s)
      case Some(d) => Success(VDateTime(d, 0))
      case None => Success(VNone)
  }

  /**
    Date in search/fields.py and search/field.py (the two copies are the same):
    a falsy argument (the empty literal) gives None; strptime on a non-str
    raises TypeError; when no format parses, the error log formats the name
    `date_strs`, which is not defined, so NameError is raised.
   */
  function SearchDate(arg: Value, strptime: string -> Option<Date>): (r: Result<Value>)
    ensures !Truthy(arg) <==> r == Success(VNone)
    ensures arg == VStr("") ==> r == Success(VNone)
    ensures r.Success? ==> r.value.VNone? || r.value.VDate?
  {
    if !Truthy(arg) then Success(VNone)
    else if !arg.VStr? then Failure(TypeError)
    else match strptime(arg.s)
      case Some(d) => Success(VDate(d))
      case None => Failure(NameError("date_strs"))
  }
}
