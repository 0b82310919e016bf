/**
 * The shape of what `yaml.safe_load` hands to the validators, and the two
 * pieces of Python semantics the validators apply to it: truthiness and the
 * `int(...)` conversion.
 */
module Yaml {
  import opened Results
  import opened Text

  /** A loaded YAML node. `Timestamp` stands for an unquoted date or time. */
  datatype Value =
    | Null
    | Bool(b: bool)
    | Int(i: int)
    | Float(f: real)
    | Str(s: string)
    | List(items: seq<Value>)
    | Dict(entries: map<string, Value>)
    | Timestamp

  /** Python truthiness (`bool(v)`). */
  predicate Truthy(v: Value) {
    match v
    case Null => false
    case Bool(b) => b
    case Int(i) => i != 0
    case Float(f) => f != 0.0
    case Str(s) => s != ""
    case List(items) => items != []
    case Dict(entries) => entries != map[]
    case Timestamp => true
  }

  /**
   * Python's `int(s)` on a string: surrounding whitespace, an optional sign
   * and at least one decimal digit.
   */
  function ParseInt(s: string): Option<int> {
    var t := Strip(s);
    if t != [] && (t[0] == '+' || t[0] == '-') && IsDigits(t[1..]) then
      var n: int := DigitsValue(t[1..]);
      Some(if t[0] == '-' then -n else n)
    else if IsDigits(t) then
      Some(DigitsValue(t))
    else
      None
  }

  /** Truncation toward zero, as `int(f)` does for a float. */
  function Truncate(f: real): (r: int)
    ensures f >= 0.0 ==> r as real <= f < r as real + 1.0
    ensures f < 0.0 ==> r as real - 1.0 < f <= r as real
  {
    if f >= 0.0 then f.Floor else -((-f).Floor)
  }

  /**
   * Python's `int(v)`: booleans are 0 and 1, floats truncate, strings are
   * parsed; everything else raises (`None` means it raised).
   */
  function IntOf(v: Value): (r: Option<int>)
    ensures v.Int? ==> r == Some(v.i)
    ensures v.Bool? ==> r == Some(if v.b then 1 else 0)
    ensures v.Null? || v.List? || v.Dict? || v.Timestamp? ==> r == None
  {
    match v
    case Bool(b) => Some(if b then 1 else 0)
    case Int(i) => Some(i)
    case Float(f) => Some(Truncate(f))
    case Str(s) => ParseInt(s)
    case _ => None
  }

  /** A signed digit string that survives stripping is read as that number. */
  lemma ParseIntOfSigned(x: string, sign: string, d: string)
    requires sign == "" || sign == "+" || sign == "-"
    requires IsDigits(d) && Strip(x) == sign + d
    ensures ParseInt(x) == Some(if sign == "-" then 0 - DigitsValue(d) else DigitsValue(d))
  {
    var body := sign + d;
    if sign != "" {
      assert body[1..] == d;
    } else {
      assert body == d;
      assert !(body[0] == '+' || body[0] == '-');
    }
  }

  /** `int(" -42 ")`: surrounding blanks and a sign are accepted. */
  lemma ParseIntPadded(pre: string, sign: string, d: string, post: string)
    requires AllSpace(pre) && AllSpace(post) && IsDigits(d)
    requires sign == "" || sign == "+" || sign == "-"
    ensures ParseInt(pre + sign + d + post)
            == Some(if sign == "-" then 0 - DigitsValue(d) else DigitsValue(d))
  {
    var body := sign + d;
    assert body[|body| - 1] == d[|d| - 1];
    assert !IsSpace(body[0]) by {
      if sign == "" { assert body[0] == d[0]; } else { assert body[0] == sign[0]; }
    }
    var x := pre + sign + d + post;
    assert x == pre + body + post;
    StripPadded(pre, body, post);
    ParseIntOfSigned(x, sign, d);
  }
}
