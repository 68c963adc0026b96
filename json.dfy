/**
 * The parsed-JSON values the recommender works on. A place record is a JSON
 * object (a Python `dict`); Python's truthiness, `dict.get`, the `a or b`
 * chain and `str()` are given here once for every module.
 */
module Json {
  datatype Json =
    | JNull
    | JBool(b: bool)
    | JInt(i: int)
    | JFloat(f: real)
    | JStr(s: string)
    | JList(items: seq<Json>)
    | JObj(fields: map<string, Json>)

  /** A Python `dict` with string keys. */
  type Record = map<string, Json>

  /** Python's `bool(v)`: the falsy values are exactly the seven empty or zero ones. */
  predicate Truthy(v: Json)
    ensures !Truthy(v) <==> v == JNull || v == JBool(false) || v == JInt(0) || v == JFloat(0.0) ||
                            v == JStr("") || v == JList([]) || v == JObj(map[])
  {
    match v
    case JNull => false
    case JBool(b) => b
    case JInt(i) => i != 0
    case JFloat(f) => f != 0.0
    case JStr(s) => s != ""
    case JList(xs) => xs != []
    case JObj(m) => m != map[]
  }

  /** Python's `d.get(key)`: `None` for a missing key. */
  function Get(r: Record, key: string): (v: Json)
    ensures key in r ==> v == r[key]
    ensures key !in r ==> v == JNull && !Truthy(v)
  {
    if key in r then r[key] else JNull
  }

  /**
   * Python's `d.get(k0) or d.get(k1) or ... or d.get(kn)`: the value of the
   * first key whose value is truthy, else the (falsy) value of the last key.
   */
  function FirstTruthy(r: Record, keys: seq<string>): (v: Json)
    requires |keys| > 0
    ensures Truthy(v) <==> exists i :: 0 <= i < |keys| && Truthy(Get(r, keys[i]))
    ensures Truthy(v) ==>
      exists i :: 0 <= i < |keys| && v == Get(r, keys[i]) &&
        forall j :: 0 <= j < i ==> !Truthy(Get(r, keys[j]))
  {
    if |keys| == 1 || Truthy(Get(r, keys[0])) then Get(r, keys[0])
    else
      var rest := FirstTruthy(r, keys[1..]);
      assert forall i :: 1 <= i < |keys| ==> keys[i] == keys[1..][i - 1];
      rest
  }

  function DigitChar(d: nat): (c: char)
    requires d < 10
    ensures '0' <= c <= '9' && DigitValue(c) == d
  {
    ('0' as int + d) as char
  }

  function DigitValue(c: char): int {
    c as int - '0' as int
  }

  /** The number a string of decimal digits denotes. */
  function DecimalValue(s: string): int
    decreases |s|
  {
    if s == [] then 0 else DecimalValue(s[..|s| - 1]) * 10 + DigitValue(s[|s| - 1])
  }

  /** The decimal digits of `n`, most significant first. */
  function NatToDecimal(n: nat): (s: string)
    ensures |s| > 0
    ensures forall i :: 0 <= i < |s| ==> '0' <= s[i] <= '9'
  {
    if n < 10 then [DigitChar(n)] else NatToDecimal(n / 10) + [DigitChar(n % 10)]
  }

  /**
   * Python's `str(v)`: exact for `None`, booleans, integers and strings;
   * floats, lists and dicts are rendered by fixed placeholders.
   */
  function PyStr(v: Json): (s: string)
    ensures v.JStr? ==> s == v.s
    ensures v.JInt? ==> |s| > 0 && (s[0] == '-' <==> v.i < 0)
  {
    match v
    case JNull => "None"
    case JBool(b) => if b then "True" else "False"
    case JInt(i) => if i < 0 then "-" + NatToDecimal(-i) else NatToDecimal(i)
    case JFloat(_) => "<float>"
    case JStr(s) => s
    case JList(_) => "<list>"
    case JObj(_) => "<dict>"
  }

  /** Reading back the digits of `n` gives `n`. */
  lemma {:induction false} DecimalRoundTrip(n: nat)
    ensures DecimalValue(NatToDecimal(n)) == n
  {
    if n >= 10 {
      DecimalRoundTrip(n / 10);
      var s := NatToDecimal(n);
      assert s[..|s| - 1] == NatToDecimal(n / 10);
    }
  }

  /** Distinct naturals have distinct digit strings. */
  lemma NatToDecimalInjective(m: nat, n: nat)
    ensures NatToDecimal(m) == NatToDecimal(n) ==> m == n
  {
    DecimalRoundTrip(m);
    DecimalRoundTrip(n);
  }

  /** Distinct integers have distinct `str()` renderings, so integer ids never collide as strings. */
  lemma PyStrIntInjective(a: int, b: int)
    ensures PyStr(JInt(a)) == PyStr(JInt(b)) ==> a == b
  {
    if PyStr(JInt(a)) == PyStr(JInt(b)) {
      if a < 0 && b < 0 {
        assert PyStr(JInt(a))[1..] == NatToDecimal(-a);
        assert PyStr(JInt(b))[1..] == NatToDecimal(-b);
        NatToDecimalInjective(-a, -b);
      } else if a >= 0 && b >= 0 {
        NatToDecimalInjective(a, b);
      }
    }
  }
}
