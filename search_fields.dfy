/**
  search/fields.py: the newer generation's field classes. A QueryField is a
  context manager: __enter__ saves the current value, convert_type replaces
  the value by the literal converted to the type of a sample value (answering
  whether that worked), and __exit__ puts the saved value back. This module
  defines no comparison operators; the conditions that use it are in
  SearchConditions.
 */
module SearchFields {
  import opened Wrappers
  import opened PyValues
  import opened Dates

  /**
    The expression convert_type evaluates: Date(current) for a date sample,
    otherwise type(sample)(str(current)).
   */
  function Converted(target: Value, current: Value, strptime: string -> Option<Date>): Result<Value> {
    if IsDateLike(target) then SearchDate(current, strptime) else Construct(target, VStr(Str(current)))
  }

  /** A str sample leaves a str literal as it is. */
  lemma ConvertedStrUnchanged(target: Value, s: string, strptime: string -> Option<Date>)
    requires target.VStr?
    ensures Converted(target, VStr(s), strptime) == Success(VStr(s))
  {
  }

  /** An int sample turns the rendering of an int back into that int. */
  lemma ConvertedIntRoundTrip(target: Value, i: int, strptime: string -> Option<Date>)
    requires target.VInt?
    ensures Converted(target, VStr(IntToString(i)), strptime) == Success(VInt(i))
  {
    ParseIntOfIntToString(i);
  }

  /** Against a date sample the empty literal converts to None, one that no format parses fails. */
  lemma ConvertedDate(target: Value, s: string, strptime: string -> Option<Date>)
    requires IsDateLike(target)
    ensures s == "" ==> Converted(target, VStr(s), strptime) == Success(VNone)
    ensures s != "" && strptime(s).None? ==> Converted(target, VStr(s), strptime).Failure?
    ensures s != "" && strptime(s).Some? ==> Converted(target, VStr(s), strptime) == Success(VDate(strptime(s).value))
  {
  }

  /** The value a sequence of conversions inside one `with` block arrives at: each starts from the previous result. */
  function ConvertAll(targets: seq<Value>, current: Value, strptime: string -> Option<Date>): Value
    decreases |targets|
  {
    if targets == [] then current
    else match Converted(targets[0], current, strptime)
      case Success(v) => ConvertAll(targets[1..], v, strptime)
      case Failure(_) => ConvertAll(targets[1..], current, strptime)
  }

  /** A run of conversions ends on the last one applied to where the rest arrived, or there if it fails. */
  lemma {:induction false} ConvertAllLast(targets: seq<Value>, current: Value, strptime: string -> Option<Date>)
    requires targets != []
    ensures var prev := ConvertAll(targets[..|targets| - 1], current, strptime);
      ConvertAll(targets, current, strptime) ==
        match Converted(targets[|targets| - 1], prev, strptime) case Success(v) => v case Failure(_) => prev
    decreases |targets|
  {
    if |targets| > 1 {
      var next := match Converted(targets[0], current, strptime) case Success(v) => v case Failure(_) => current;
      assert ConvertAll(targets, current, strptime) == ConvertAll(targets[1..], next, strptime);
      ConvertAllLast(targets[1..], next, strptime);
      assert targets[..|targets| - 1][1..] == targets[1..][..|targets| - 2];
      assert ConvertAll(targets[..|targets| - 1], current, strptime) == ConvertAll(targets[1..][..|targets| - 2], next, strptime);
    }
  }

  /**
    A conversion to str or bool never fails, so a run of conversions whose last
    sample is a str ends on str() of where the rest arrived, and one whose last
    sample is a bool on whether that rendering is non-empty.
   */
  lemma ConvertAllEndsOnTotalTarget(targets: seq<Value>, current: Value, strptime: string -> Option<Date>)
    requires targets != [] && (targets[|targets| - 1].VStr? || targets[|targets| - 1].VBool?)
    ensures var prev := ConvertAll(targets[..|targets| - 1], current, strptime);
      ConvertAll(targets, current, strptime) ==
        if targets[|targets| - 1].VStr? then VStr(Str(prev)) else VBool(Str(prev) != "")
  {
    ConvertAllLast(targets, current, strptime);
  }

  class QueryField {
    var name: string
    var value: Value
    var origVal: Option<Value>   // __orig_val; absent until __enter__ has run

    /** QueryField(name, value): value must be a str; the name is passed through str(). */
    constructor(name: Value, value: string)
      ensures this.name == Str(name) && this.value == VStr(value) && origVal == None
    {
      this.name := Str(name);
      this.value := VStr(value);
      origVal := None;
    }

    /** convert_type: replace the value by its conversion and answer True, or leave it and answer False. */
    method ConvertType(target: Value, strptime: string -> Option<Date>) returns (ok: bool)
      modifies this`value
      ensures ok <==> Converted(target, old(value), strptime).Success?
      ensures value == if ok then Converted(target, old(value), strptime).value else old(value)
    {
      match Converted(target, value, strptime)
      case Success(v) =>
        value := v;
        ok := true;
      case Failure(_) =>
        ok := false;
    }

    /** __enter__: remember the current value. */
    method Enter()
      modifies this`origVal
      ensures origVal == Some(value)
    {
      origVal := Some(value);
    }

    /** __exit__: restore the remembered value; before any __enter__ the attribute lookup fails. */
    method Exit() returns (err: Option<PyError>)
      modifies this`value
      ensures old(origVal).None? ==> err == Some(AttributeError) && value == old(value)
      ensures old(origVal).Some? ==> err == None && value == old(origVal).value
    {
      if origVal.None? {
        err := Some(AttributeError);
      } else {
        value := origVal.value;
        err := None;
      }
    }

    /**
      `with query_field:` around convert_type for each target in turn: inside
      the block every conversion starts from the previous one's result, and
      after it the literal is back.
     */
    method ConvertWithin(targets: seq<Value>, strptime: string -> Option<Date>) returns (oks: seq<bool>, last: Value)
      modifies this`value, this`origVal
      ensures |oks| == |targets|
      ensures last == ConvertAll(targets, old(value), strptime)
      ensures value == old(value) && origVal == Some(old(value))
    {
      Enter();
      oks := [];
      var i := 0;
      while i < |targets|
        invariant 0 <= i <= |targets|
        invariant |oks| == i
        invariant origVal == Some(old(value))
        invariant ConvertAll(targets[i..], value, strptime) == ConvertAll(targets, old(value), strptime)
      {
        assert targets[i..][1..] == targets[i + 1..];
        var ok := ConvertType(targets[i], strptime);
        oks := oks + [ok];
        i := i + 1;
      }
      last := value;
      var _ := Exit();
    }
  }
}
