/** Parsed JSON values, as `json.load` hands them to the converter, and the
    few Python built-ins the converter applies to them: `dict.get`, `str`,
    iteration in a `for` loop, `', '.join` and the `in` test. */
module JsonValues {

  /** A decoded JSON value. A number with a fraction or an exponent is only
      ever passed through, so it keeps its source text and nothing else. */
  datatype Json =
    | JNull
    | JBool(b: bool)
    | JInt(i: int)
    | JFloat(text: string)
    | JString(s: string)
    | JArray(elems: seq<Json>)
    | JObject(fields: map<string, Json>)

  /** Why a run yields no rows. */
  datatype Error =
    | UnsupportedShape  // the root is neither an object nor a list: message, exit status 1
    | Malformed         // the program raises (AttributeError or TypeError) on this input
    | Unmodelled        // a value whose text the model does not represent; no claim about the rest of the run

  datatype Result<+T> = Ok(value: T) | Err(error: Error) {
    predicate IsFailure() { Err? }

    function PropagateFailure<U>(): Result<U>
      requires Err?
    {
      Err(error)
    }

    function Extract(): T
      requires Ok?
    {
      value
    }
  }

  /** `fields.get(key, default)` */
  function Get(fields: map<string, Json>, key: string, default: Json): Json
  {
    if key in fields then fields[key] else default
  }

  // ---------------------------------------------------------------------
  // Decimal numerals: what `str()` gives for a Python int.

  predicate IsDigit(c: char) { '0' <= c <= '9' }

  function DigitChar(d: nat): (c: char)
    requires d < 10
    ensures IsDigit(c) && c as int - '0' as int == d
  {
    ('0' as int + d) as char
  }

  /** The value of a numeral; the inverse of NatToDecimal. */
  function ParseNat(s: string): int
  {
    if |s| == 0 then 0 else ParseNat(s[..|s| - 1]) * 10 + (s[|s| - 1] as int - '0' as int)
  }

  /** A '-' sign followed by a numeral, or a bare numeral. */
  function ParseInt(s: string): int
  {
    if |s| > 0 && s[0] == '-' then -ParseNat(s[1..]) else ParseNat(s)
  }

  /** The shortest decimal numeral of `n`. */
  function NatToDecimal(n: nat): (r: string)
    ensures |r| >= 1 && forall k :: 0 <= k < |r| ==> IsDigit(r[k])
    ensures ParseNat(r) == n
    ensures n > 0 ==> r[0] != '0'
    ensures r[0] == '0' ==> r == "0"
  {
    if n < 10 then [DigitChar(n)]
    else
      var prefix := NatToDecimal(n / 10);
      var r := prefix + [DigitChar(n % 10)];
      assert r[..|r| - 1] == prefix;
      r
  }

  /** `str(i)` for an int: a '-' sign for a negative value, then its numeral. */
  function IntToDecimal(i: int): (r: string)
    ensures ParseInt(r) == i
    ensures |r| >= 1 && (r[0] == '-' <==> i < 0)
    ensures forall k :: 0 <= k < |r| && (k > 0 || i >= 0) ==> IsDigit(r[k])
    ensures var d := if i < 0 then r[1..] else r; |d| >= 1 && (d[0] == '0' ==> d == "0")
  {
    if i < 0 then
      var digits := NatToDecimal(-i);
      assert ("-" + digits)[1..] == digits;
      "-" + digits
    else NatToDecimal(i)
  }

  /** Python's `str()` of a decoded JSON value, for the values whose text the
      model represents: a string is itself, an int its decimal numeral, null
      and the booleans their Python names. The text of a float, a list or a
      dict is not represented. */
  function Str(v: Json): (r: Result<string>)
    ensures r.Ok? <==> (v.JNull? || v.JBool? || v.JInt? || v.JString?)
    ensures v.JString? ==> r == Ok(v.s)
    ensures v.JInt? ==> r == Ok(IntToDecimal(v.i))
  {
    match v
    case JNull => Ok("None")
    case JBool(b) => Ok(if b then "True" else "False")
    case JInt(i) => Ok(IntToDecimal(i))
    case JString(s) => Ok(s)
    case _ => Err(Unmodelled)
  }

  /** Two ints never share a text. */
  lemma StrIntInjective(a: int, b: int)
    requires Str(JInt(a)) == Str(JInt(b))
    ensures a == b
  {
    assert ParseInt(Str(JInt(a)).value) == a;
  }

  // ---------------------------------------------------------------------
  // Iteration

  /** The elements a `for x in v:` loop meets when its body starts with
      `x.get(...)`. Iterating a string yields its characters and iterating a
      dict yields its keys; both are strings, so `.get` raises on the first
      of them: only an empty string or dict gets through. Anything else that
      is not a list is not iterable at all. */
  function Members(v: Json): (r: Result<seq<Json>>)
    ensures r.Ok? <==> (v.JArray? || v == JString("") || v == JObject(map[]))
    ensures v.JArray? ==> r == Ok(v.elems)
    ensures r.Ok? && !v.JArray? ==> r.value == []
  {
    match v
    case JArray(xs) => Ok(xs)
    case JString(s) => if s == "" then Ok([]) else Err(Malformed)
    case JObject(m) => if m == map[] then Ok([]) else Err(Malformed)
    case _ => Err(Malformed)
  }

  // ---------------------------------------------------------------------
  // ', '.join(...)

  function TotalLength(parts: seq<string>): nat
  {
    if |parts| == 0 then 0 else TotalLength(parts[..|parts| - 1]) + |parts[|parts| - 1]|
  }

  /** The parts in order, with ", " between each two neighbours. */
  function CommaJoin(parts: seq<string>): (r: string)
    ensures |parts| == 0 ==> r == ""
    ensures |parts| > 0 ==> |r| == TotalLength(parts) + 2 * (|parts| - 1)
  {
    if |parts| == 0 then ""
    else if |parts| == 1 then parts[0]
    else
      CommaJoin(parts[..|parts| - 1]) + ", " + parts[|parts| - 1]
  }

  /** One part joins to itself; one more part adds ", " and that part. */
  lemma CommaJoinSnoc(parts: seq<string>, p: string)
    ensures CommaJoin([p]) == p
    ensures |parts| > 0 ==> CommaJoin(parts + [p]) == CommaJoin(parts) + ", " + p
  {
    assert (parts + [p])[..|parts|] == parts;
  }

  /** The characters of a string, each as a one-character string. */
  function Chars(s: string): (r: seq<string>)
    ensures |r| == |s| && forall k :: 0 <= k < |s| ==> r[k] == [s[k]]
  {
    seq(|s|, k requires 0 <= k < |s| => [s[k]])
  }

  predicate AllStrings(xs: seq<Json>)
  {
    forall k :: 0 <= k < |xs| ==> xs[k].JString?
  }

  function Texts(xs: seq<Json>): (r: seq<string>)
    requires AllStrings(xs)
    ensures |r| == |xs| && forall k :: 0 <= k < |xs| ==> xs[k] == JString(r[k])
  {
    seq(|xs|, k requires 0 <= k < |xs| && AllStrings(xs) => xs[k].s)
  }

  /** `', '.join(v)`: a list must hold only strings (TypeError otherwise); a
      string is joined character by character; an empty dict joins to "";
      a non-empty dict joins its keys in insertion order, which a `map` does
      not keep; anything else is not iterable. */
  function JoinTags(v: Json): (r: Result<string>)
    ensures v.JArray? && AllStrings(v.elems) ==> r == Ok(CommaJoin(Texts(v.elems)))
    ensures v.JArray? && !AllStrings(v.elems) ==> r == Err(Malformed)
    ensures v.JString? ==> r == Ok(CommaJoin(Chars(v.s)))
    ensures r.Ok? ==> v.JArray? || v.JString? || v == JObject(map[])
  {
    match v
    case JArray(xs) => if AllStrings(xs) then Ok(CommaJoin(Texts(xs))) else Err(Malformed)
    case JString(s) => Ok(CommaJoin(Chars(s)))
    case JObject(m) => if m == map[] then Ok("") else Err(Unmodelled)
    case _ => Err(Malformed)
  }

  // ---------------------------------------------------------------------
  // The `in` test on a string

  /** `sub in s` for two strings: `sub` occurs in `s` as a contiguous part. */
  predicate Contains(s: string, sub: string)
  {
    exists i :: 0 <= i <= |s| - |sub| && OccursAt(s, sub, i)
  }

  predicate OccursAt(s: string, sub: string, i: int)
    requires 0 <= i <= |s| - |sub|
  {
    s[i..i + |sub|] == sub
  }
}
