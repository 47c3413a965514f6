/**
  The Python values that record fields hold, and the built-in operations the
  core applies to them: str(), int() on a string, truthiness, the conversion
  type(target)(arg), and the rich comparisons ==, !=, <, <=, >, >=.
 */
module PyValues {
  import opened Wrappers

  /** A calendar date (Python's date). */
  datatype Date = Date(year: nat, month: nat, day: nat)

  /**
    A field value: int, str, bool, None, a date, a datetime (a date and a time
    of day in whole seconds since midnight), or a list (the one collection kind
    modelled).
   */
  datatype Value =
    | VInt(i: int)
    | VStr(s: string)
    | VBool(b: bool)
    | VNone
    | VDate(d: Date)
    | VDateTime(day: Date, seconds: nat)
    | VList(items: seq<Value>)

  /** isinstance(v, (date, datetime)). */
  predicate IsDateLike(v: Value) {
    v.VDate? || v.VDateTime?
  }

  // ---------------------------------------------------------------------------
  // Decimal text
  // ---------------------------------------------------------------------------

  predicate IsDigit(c: char) {
    '0' <= c <= '9'
  }

  function DigitChar(d: nat): (c: char)
    requires d < 10
    ensures IsDigit(c) && c as int - '0' as int == d
  {
    ('0' as int + d) as char
  }

  /** str(n) for a non-negative int: its decimal digits, most significant first. */
  function NatToString(n: nat): (r: string)
    ensures |r| > 0
    ensures forall k :: 0 <= k < |r| ==> IsDigit(r[k])
  {
    if n < 10 then [DigitChar(n)] else NatToString(n / 10) + [DigitChar(n % 10)]
  }

  /** str(i) for an int. */
  function IntToString(i: int): string {
    if i < 0 then "-" + NatToString(-i) else NatToString(i)
  }

  /** n in decimal, left-padded with zeros to at least `width` characters. */
  function ZeroPad(n: nat, width: nat): (r: string)
    ensures |r| >= width
  {
    var digits := NatToString(n);
    if |digits| >= width then digits else seq(width - |digits|, _ => '0') + digits
  }

  function DateToString(d: Date): string {
    ZeroPad(d.year, 4) + "-" + ZeroPad(d.month, 2) + "-" + ZeroPad(d.day, 2)
  }

  /** A time of day as HH:MM:SS, the hour wrapping at 24. */
  function TimeToString(seconds: nat): string {
    ZeroPad(seconds / 3600 % 24, 2) + ":" + ZeroPad(seconds / 60 % 60, 2) + ":" + ZeroPad(seconds % 60, 2)
  }

  // ---------------------------------------------------------------------------
  // str() and repr()
  // ---------------------------------------------------------------------------

  /** str(v). */
  function Str(v: Value): string
    decreases v, 2
  {
    match v
    case VInt(i) => IntToString(i)
    case VStr(s) => s
    case VBool(b) => if b then "True" else "False"
    case VNone => "None"
    case VDate(d) => DateToString(d)
    case VDateTime(d, t) => DateToString(d) + " " + TimeToString(t)
    case VList(_) => "[" + ReprItems(v, 0) + "]"
  }

  /** repr(v), used for the elements of a list; a string is quoted (escapes are not modelled). */
  function Repr(v: Value): string
    decreases v, 3
  {
    if v.VStr? then "'" + v.s + "'" else Str(v)
  }

  /** The items of a list from index k on, each rendered by repr and separated by ", ". */
  function ReprItems(v: Value, k: nat): string
    requires v.VList? && k <= |v.items|
    decreases v, 1, |v.items| - k
  {
    if k == |v.items| then ""
    else (if k > 0 then ", " else "") + Repr(v.items[k]) + ReprItems(v, k + 1)
  }

  /** bool(v). */
  predicate Truthy(v: Value) {
    match v
    case VInt(i) => i != 0
    case VStr(s) => s != ""
    case VBool(b) => b
    case VNone => false
    case VDate(_) => true
    case VDateTime(_, _) => true
    case VList(items) => items != []
  }

  // ---------------------------------------------------------------------------
  // int() on a string
  // ---------------------------------------------------------------------------

  /**
    The ASCII characters that str.strip() and int() treat as white space:
    space, tab, newline, carriage return, vertical tab, form feed and the
    separators 0x1C-0x1F. Non-ASCII white space is not modelled.
   */
  predicate IsSpace(c: char) {
    c == ' ' || c == '\t' || c == '\n' || c == '\r' || c as int == 11 || c as int == 12 || 28 <= c as int <= 31
  }

  function TrimStart(s: string): string {
    if |s| > 0 && IsSpace(s[0]) then TrimStart(s[1..]) else s
  }

  function TrimEnd(s: string): string {
    if |s| > 0 && IsSpace(s[|s| - 1]) then TrimEnd(s[..|s| - 1]) else s
  }

  function Strip(s: string): string {
    TrimEnd(TrimStart(s))
  }

  /** t matches ("_"? digit)*: every underscore sits directly before a digit. */
  predicate GroupedDigitTail(t: string) {
    if t == [] then true
    else if IsDigit(t[0]) then GroupedDigitTail(t[1..])
    else t[0] == '_' && |t| >= 2 && IsDigit(t[1]) && GroupedDigitTail(t[2..])
  }

  /** t is an integer literal body: digit ("_"? digit)*. */
  predicate GroupedDigits(t: string) {
    |t| > 0 && IsDigit(t[0]) && GroupedDigitTail(t[1..])
  }

  /** The number the digits of t spell, underscores ignored. */
  function DigitValue(t: string): nat {
    if t == [] then 0
    else if IsDigit(t[|t| - 1]) then DigitValue(t[..|t| - 1]) * 10 + (t[|t| - 1] as int - '0' as int)
    else DigitValue(t[..|t| - 1])
  }

  /** int(s) for a str s: None where Python raises ValueError. */
  function ParseInt(s: string): Option<int> {
    var t := Strip(s);
    if |t| > 0 && (t[0] == '+' || t[0] == '-') then
      if GroupedDigits(t[1..]) then
        Some(if t[0] == '-' then -(DigitValue(t[1..]) as int) else DigitValue(t[1..]) as int)
      else None
    else if GroupedDigits(t) then Some(DigitValue(t))
    else None
  }

  lemma {:induction false} DigitValueOfNatToString(n: nat)
    ensures DigitValue(NatToString(n)) == n
  {
    var r := NatToString(n);
    if n < 10 {
      assert r[..|r| - 1] == [];
    } else {
      var a := NatToString(n / 10);
      assert r == a + [DigitChar(n % 10)];
      assert r[..|r| - 1] == a;
      DigitValueOfNatToString(n / 10);
    }
  }

  lemma {:induction false} AllDigitsAreGrouped(t: string)
    requires forall k :: 0 <= k < |t| ==> IsDigit(t[k])
    ensures GroupedDigitTail(t)
  {
    if t != [] {
      AllDigitsAreGrouped(t[1..]);
    }
  }

  lemma NatToStringIsLiteral(n: nat)
    ensures GroupedDigits(NatToString(n))
    ensures Strip(NatToString(n)) == NatToString(n)
  {
    var r := NatToString(n);
    AllDigitsAreGrouped(r[1..]);
    assert TrimStart(r) == r;
  }

  /** int(str(i)) == i: the decimal rendering of an int parses back to it. */
  lemma ParseIntOfIntToString(i: int)
    ensures ParseInt(IntToString(i)) == Some(i)
  {
    if i < 0 {
      var r := NatToString(-i);
      var t := "-" + r;
      NatToStringIsLiteral(-i);
      assert TrimStart(t) == t;
      assert t[|t| - 1] == r[|r| - 1];
      assert TrimEnd(t) == t;
      assert t[1..] == r;
      DigitValueOfNatToString(-i);
    } else {
      NatToStringIsLiteral(i);
      DigitValueOfNatToString(i);
    }
  }

  /** Distinct ints have distinct renderings (so list indices give distinct field names). */
  lemma IntToStringInjective(a: int, b: int)
    requires IntToString(a) == IntToString(b)
    ensures a == b
  {
    ParseIntOfIntToString(a);
    ParseIntOfIntToString(b);
  }

  // ---------------------------------------------------------------------------
  // type(target)(arg)
  // ---------------------------------------------------------------------------

  /** list(s) for a str s: its characters, each a one-character str. */
  function Chars(s: string): (r: seq<Value>)
    ensures |r| == |s| && forall k :: 0 <= k < |s| ==> r[k] == VStr([s[k]])
  {
    seq(|s|, k requires 0 <= k < |s| => VStr([s[k]]))
  }

  /**
    type(target)(arg): calling the constructor of target's runtime type on arg.
    int() parses strings and accepts ints and bools; str() renders; bool() is
    truthiness; NoneType(), date() and datetime() take no single argument;
    list() takes an iterable.
   */
  function Construct(target: Value, arg: Value): Result<Value> {
    match target
    case VInt(_) =>
      (match arg
       case VStr(s) => (match ParseInt(s) case Some(n) => Success(VInt(n)) case None => Failure(ValueError))
       case VInt(i) => Success(VInt(i))
       case VBool(b) => Success(VInt(if b then 1 else 0))
       case _ => Failure(TypeError))
    case VStr(_) => Success(VStr(Str(arg)))
    case VBool(_) => Success(VBool(Truthy(arg)))
    case VNone => Failure(TypeError)
    case VDate(_) => Failure(TypeError)
    case VDateTime(_, _) => Failure(TypeError)
    case VList(_) =>
      (match arg
       case VStr(s) => Success(VList(Chars(s)))
       case VList(items) => Success(VList(items))
       case _ => Failure(TypeError))
  }

  /** Converting a literal to a str target leaves it unchanged. */
  lemma ConstructStrIsIdentity(target: Value, s: string)
    requires target.VStr?
    ensures Construct(target, VStr(s)) == Success(VStr(s))
  {
  }

  /** Converting a literal to a bool target is true exactly for a non-empty literal ("False" included). */
  lemma ConstructBoolIsNonEmpty(target: Value, s: string)
    requires target.VBool?
    ensures Construct(target, VStr(s)) == Success(VBool(s != ""))
  {
  }

  /** Converting str(v) back to the type of an int v gives v again. */
  lemma ConstructIntRoundTrip(target: Value, i: int)
    requires target.VInt?
    ensures Construct(target, VStr(Str(VInt(i)))) == Success(VInt(i))
  {
    ParseIntOfIntToString(i);
  }

  // ---------------------------------------------------------------------------
  // Rich comparison
  // ---------------------------------------------------------------------------

  datatype CompareOp = Eq | Ne | Lt | Le | Gt | Ge

  function Sign(x: int): int {
    if x < 0 then -1 else if x > 0 then 1 else 0
  }

  /** Three-way lexicographic comparison of strings by code point. */
  function StrCompare(a: string, b: string): (c: int)
    ensures -1 <= c <= 1
  {
    if a == [] && b == [] then 0
    else if a == [] then -1
    else if b == [] then 1
    else if a[0] < b[0] then -1
    else if a[0] > b[0] then 1
    else StrCompare(a[1..], b[1..])
  }

  function DateCompare(a: Date, b: Date): int {
    if a.year != b.year then Sign(a.year - b.year)
    else if a.month != b.month then Sign(a.month - b.month)
    else Sign(a.day - b.day)
  }

  /** A bool is an int in Python's numeric tower. */
  function AsNumber(v: Value): Option<int> {
    match v
    case VInt(i) => Some(i)
    case VBool(b) => Some(if b then 1 else 0)
    case _ => None
  }

  function DateTimeCompare(a: Value, b: Value): int
    requires a.VDateTime? && b.VDateTime?
  {
    if a.day != b.day then DateCompare(a.day, b.day) else Sign(a.seconds - b.seconds)
  }

  /**
    The three-way order of a and b when Python orders them (numbers, strings,
    two dates, two datetimes), else None: a date and a datetime are not ordered
    against each other.
   */
  function Order(a: Value, b: Value): Option<int> {
    if AsNumber(a).Some? && AsNumber(b).Some? then Some(Sign(AsNumber(a).value - AsNumber(b).value))
    else if a.VStr? && b.VStr? then Some(StrCompare(a.s, b.s))
    else if a.VDate? && b.VDate? then Some(DateCompare(a.d, b.d))
    else if a.VDateTime? && b.VDateTime? then Some(DateTimeCompare(a, b))
    else None
  }

  predicate Satisfies(op: CompareOp, c: int) {
    match op
    case Eq => c == 0
    case Ne => c != 0
    case Lt => c < 0
    case Le => c <= 0
    case Gt => c > 0
    case Ge => c >= 0
  }

  /**
    a op b. Unordered pairs (None, lists, mixed types, a date against a
    datetime) still compare for == and != by identity of value, so a date never
    equals a datetime; <, <=, >, >= raise TypeError on them.
   */
  function PyCompare(op: CompareOp, a: Value, b: Value): Result<bool> {
    match Order(a, b)
    case Some(c) => Success(Satisfies(op, c))
    case None =>
      if op == Eq then Success(a == b)
      else if op == Ne then Success(a != b)
      else Failure(TypeError)
  }

  lemma {:induction false} StrCompareAntisymmetric(a: string, b: string)
    ensures StrCompare(a, b) == -StrCompare(b, a)
  {
    if a != [] && b != [] && a[0] == b[0] {
      StrCompareAntisymmetric(a[1..], b[1..]);
    }
  }

  lemma {:induction false} StrCompareZeroIffEqual(a: string, b: string)
    ensures StrCompare(a, b) == 0 <==> a == b
  {
    if a != [] && b != [] && a[0] == b[0] {
      StrCompareZeroIffEqual(a[1..], b[1..]);
      assert a == [a[0]] + a[1..] && b == [b[0]] + b[1..];
    } else if a != [] && b != [] {
      assert a[0] != b[0];
    }
  }

  /** `a < b` is `b > a`, and `a <= b` is `b >= a`, for every pair of values. */
  lemma PyCompareConverse(a: Value, b: Value)
    ensures PyCompare(Lt, a, b) == PyCompare(Gt, b, a)
    ensures PyCompare(Le, a, b) == PyCompare(Ge, b, a)
  {
    if a.VStr? && b.VStr? {
      StrCompareAntisymmetric(a.s, b.s);
    }
  }

  /** `!=` always answers the opposite of `==`, and neither raises. */
  lemma PyCompareNotEqualIsNegation(a: Value, b: Value)
    ensures PyCompare(Eq, a, b).Success? && PyCompare(Ne, a, b).Success?
    ensures PyCompare(Ne, a, b).value == !PyCompare(Eq, a, b).value
  {
  }

  /** Every value equals itself. */
  lemma PyCompareReflexive(v: Value)
    ensures PyCompare(Eq, v, v) == Success(true)
  {
    if v.VStr? {
      StrCompareZeroIffEqual(v.s, v.s);
    }
  }

  /**
    A date and a datetime are never equal, even on the same day at midnight,
    and ordering one against the other raises TypeError.
   */
  lemma DateNeverMeetsDateTime(op: CompareOp, d: Date, e: Date, t: nat)
    ensures PyCompare(Eq, VDate(d), VDateTime(e, t)) == Success(false)
    ensures PyCompare(Ne, VDate(d), VDateTime(e, t)) == Success(true)
    ensures op != Eq && op != Ne ==> PyCompare(op, VDate(d), VDateTime(e, t)) == Failure(TypeError)
  {
  }
}
