/** `utils._get_as_snowflake(data, key)`: read an ID field of a JSON payload,
    which Discord sends as a decimal string. */
module SnowflakeField {
  import opened Wrappers

  /** The JSON scalars a payload field can hold. */
  datatype Json = JNull | JBool(b: bool) | JInt(i: int) | JStr(s: string)

  /** Python truthiness of the decoded value. */
  predicate Truthy(v: Json) {
    match v
    case JNull => false
    case JBool(b) => b
    case JInt(i) => i != 0
    case JStr(s) => s != ""
  }

  function DigitValue(c: char): int {
    (c as int) - ('0' as int)
  }

  predicate AllDigits(s: string) {
    forall i :: 0 <= i < |s| ==> '0' <= s[i] <= '9'
  }

  /** The value of a string of decimal digits. */
  function ParseDigits(s: string): (n: nat)
    requires AllDigits(s)
    decreases |s|
  {
    if s == [] then 0
    else 10 * ParseDigits(s[..|s| - 1]) + DigitValue(s[|s| - 1])
  }

  /** `int(s)` on a string: an optional sign followed by at least one digit,
      else `ValueError`. */
  function ParseInt(s: string): (r: Result<int>)
    ensures r.Failure? ==> r.error == ValueError
    ensures AllDigits(s) && s != [] ==> r == Success(ParseDigits(s))
    ensures r.Success? ==> s != [] && ((s[0] == '-' && r.value <= 0) || (s[0] != '-' && r.value >= 0))
    ensures s != [] && s[0] != '-' && s[0] != '+' ==> (r.Success? <==> AllDigits(s))
    ensures s != [] && (s[0] == '-' || s[0] == '+') ==> (r.Success? <==> |s| > 1 && AllDigits(s[1..]))
    ensures |s| > 1 && s[0] == '-' && AllDigits(s[1..]) ==> r == Success(0 - ParseDigits(s[1..]) as int)
    ensures |s| > 1 && s[0] == '+' && AllDigits(s[1..]) ==> r == Success(ParseDigits(s[1..]))
  {
    if s != [] && (s[0] == '-' || s[0] == '+') then
      var body := s[1..];
      if body != [] && AllDigits(body) then
        Success(if s[0] == '-' then 0 - ParseDigits(body) as int else ParseDigits(body) as int)
      else Failure(ValueError)
    else if s != [] && AllDigits(s) then Success(ParseDigits(s))
    else Failure(ValueError)
  }

  /** `int(value)` on a truthy non-string scalar. */
  function ToInt(v: Json): (r: Result<int>)
  {
    match v
    case JNull => Failure(TypeError)
    case JBool(b) => Success(if b then 1 else 0)
    case JInt(i) => Success(i)
    case JStr(s) => ParseInt(s)
  }

  /** `_get_as_snowflake(data, key)`: `None` for a missing key; a falsy value
      (null, `False`, 0, the empty string) comes back as it is; anything else
      goes through `int()`, which rejects a non-numeric string. */
  function GetAsSnowflake(data: map<string, Json>, key: string): (r: Result<Json>)
    ensures key !in data ==> r == Success(JNull)
    ensures key in data && !Truthy(data[key]) ==> r == Success(data[key])
    ensures key in data && Truthy(data[key]) && r.Success? ==> r.value.JInt?
    ensures key in data && data[key].JInt? ==> r == Success(data[key])
    ensures key in data && data[key] == JBool(true) ==> r == Success(JInt(1))
    ensures key in data && data[key].JStr? && data[key].s != "" && ParseInt(data[key].s).Success? ==>
              r == Success(JInt(ParseInt(data[key].s).value))
    ensures r.Failure? <==> key in data && data[key].JStr? && data[key].s != "" && ParseInt(data[key].s).Failure?
    ensures r.Failure? ==> r.error == ValueError
  {
    if key !in data then Success(JNull)
    else
      var value := data[key];
      if !Truthy(value) then Success(value)
      else
        var n :- ToInt(value);
        Success(JInt(n))
  }

  function DigitChar(d: int): char
    requires 0 <= d < 10
  {
    ('0' as int + d) as char
  }

  /** The decimal spelling Discord uses for an ID. */
  function Decimal(n: nat): (s: string)
    ensures s != [] && AllDigits(s)
    decreases n
  {
    if n < 10 then [DigitChar(n)] else Decimal(n / 10) + [DigitChar(n % 10)]
  }

  lemma {:induction false} DecimalRoundTrip(n: nat)
    ensures ParseDigits(Decimal(n)) == n
    decreases n
  {
    if n >= 10 {
      var s := Decimal(n);
      assert s[..|s| - 1] == Decimal(n / 10);
      DecimalRoundTrip(n / 10);
    }
  }

  /** An ID sent as its decimal string is read back as that ID. */
  lemma SnowflakeRoundTrip(data: map<string, Json>, key: string, id: nat)
    requires key in data && data[key] == JStr(Decimal(id))
    ensures GetAsSnowflake(data, key) == Success(JInt(id))
  {
    DecimalRoundTrip(id);
  }

  /** The spelling `str(n)` gives an integer: a minus sign before the
      decimal digits of a negative one. */
  function Signed(n: int): (s: string)
    ensures s != []
  {
    if n < 0 then "-" + Decimal(-n) else Decimal(n)
  }

  /** `int(str(n)) == n` for every integer, negative ones included. */
  lemma SignedRoundTrip(n: int)
    ensures ParseInt(Signed(n)) == Success(n)
  {
    var s := Signed(n);
    if n < 0 {
      var d := Decimal(-n);
      assert s == "-" + d && s[1..] == d;
      assert |s| > 1 && s[0] == '-' && AllDigits(s[1..]);
      DecimalRoundTrip(-n);
      assert ParseInt(s) == Success(0 - ParseDigits(d) as int);
    } else {
      assert AllDigits(s) && s != [];
      DecimalRoundTrip(n);
    }
  }

  /** An explicit plus sign does not change the value: `int('+' + str(n)) == n`. */
  lemma PlusRoundTrip(n: nat)
    ensures ParseInt("+" + Decimal(n)) == Success(n)
  {
    assert ("+" + Decimal(n))[1..] == Decimal(n);
    DecimalRoundTrip(n);
  }

  /** An ID sent as any integer's `str()` spelling, sign included, is read
      back as that integer. */
  lemma SignedSnowflakeRoundTrip(data: map<string, Json>, key: string, n: int)
    requires key in data && data[key] == JStr(Signed(n))
    ensures GetAsSnowflake(data, key) == Success(JInt(n))
  {
    SignedRoundTrip(n);
  }
}
