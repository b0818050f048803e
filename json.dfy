/**
 * JSON values as the server handles them after `JSON.parse`, with the
 * JavaScript coercions it applies: truthiness, `a || b`, optional property
 * access `v?.k`, and `String(v)`.
 */
module Json {
  import opened Wrappers

  /** A JavaScript value from parsed JSON; `Undefined` is what a missing property reads as. */
  datatype Json =
    | Undefined
    | Null
    | Bool(b: bool)
    | Num(n: int)
    | Str(s: string)
    | Arr(items: seq<Json>)
    | Obj(fields: map<string, Json>)

  /** JavaScript truthiness: `undefined`, `null`, `false`, `0` and `""` are falsy, everything else truthy. */
  predicate Truthy(v: Json) {
    match v
    case Undefined => false
    case Null => false
    case Bool(b) => b
    case Num(n) => n != 0
    case Str(s) => s != ""
    case Arr(_) => true
    case Obj(_) => true
  }

  /** `a || b`: the left operand when it is truthy, otherwise the right one. */
  function Or(a: Json, b: Json): (r: Json)
    ensures Truthy(a) ==> r == a
    ensures !Truthy(a) ==> r == b
  {
    if Truthy(a) then a else b
  }

  /** `v?.key`: the own property of an object, `undefined` for anything else or a missing key. */
  function Get(v: Json, key: string): (r: Json)
    ensures r != Undefined ==> v.Obj? && key in v.fields && v.fields[key] == r
    ensures v.Obj? && key in v.fields ==> r == v.fields[key]
  {
    if v.Obj? && key in v.fields then v.fields[key] else Undefined
  }

  /** The first truthy value of `vs`, or `fallback`: the chain `vs[0] || vs[1] || ... || fallback`. */
  function FirstTruthy(vs: seq<Json>, fallback: Json): (r: Json)
    ensures r == fallback || r in vs
    ensures (forall i :: 0 <= i < |vs| ==> !Truthy(vs[i])) ==> r == fallback
  {
    if vs == [] then fallback
    else if Truthy(vs[0]) then vs[0]
    else FirstTruthy(vs[1..], fallback)
  }

  /** The chain unfolds one `||` at a time. */
  lemma FirstTruthyCons(vs: seq<Json>, fallback: Json)
    requires vs != []
    ensures FirstTruthy(vs, fallback) == Or(vs[0], FirstTruthy(vs[1..], fallback))
  {
  }

  /** The first truthy element is picked: every element before it is falsy. */
  lemma {:induction false} FirstTruthyPicksFirst(vs: seq<Json>, fallback: Json, k: nat)
    requires k < |vs| && Truthy(vs[k])
    requires forall i :: 0 <= i < k ==> !Truthy(vs[i])
    ensures FirstTruthy(vs, fallback) == vs[k]
    decreases k
  {
    if k > 0 {
      FirstTruthyPicksFirst(vs[1..], fallback, k - 1);
    }
  }

  function DigitChar(d: nat): (c: char)
    requires d < 10
    ensures '0' <= c <= '9' && c as int - '0' as int == d
  {
    ('0' as int + d) as char
  }

  /** Decimal digits of a natural number, most significant first. */
  function NatToDecimal(n: nat): (r: string)
    ensures |r| >= 1
    ensures forall i :: 0 <= i < |r| ==> '0' <= r[i] <= '9'
    decreases n
  {
    if n < 10 then [DigitChar(n)] else NatToDecimal(n / 10) + [DigitChar(n % 10)]
  }

  /** The value a string of decimal digits denotes. */
  function DecimalValue(s: string): nat
    requires forall i :: 0 <= i < |s| ==> '0' <= s[i] <= '9'
  {
    if s == [] then 0 else 10 * DecimalValue(s[..|s| - 1]) + (s[|s| - 1] as int - '0' as int)
  }

  /** Appending a digit multiplies the value by ten and adds the digit. */
  lemma DecimalValueSnoc(s: string, d: nat)
    requires forall i :: 0 <= i < |s| ==> '0' <= s[i] <= '9'
    requires d < 10
    ensures forall i :: 0 <= i < |s + [DigitChar(d)]| ==> '0' <= (s + [DigitChar(d)])[i] <= '9'
    ensures DecimalValue(s + [DigitChar(d)]) == 10 * DecimalValue(s) + d
  {
    var t := s + [DigitChar(d)];
    assert t[..|t| - 1] == s;
  }

  /** `NatToDecimal` is inverted by reading the digits back. */
  lemma {:induction false} DecimalRoundTrip(n: nat)
    ensures DecimalValue(NatToDecimal(n)) == n
    decreases n
  {
    if n >= 10 {
      var q, d := n / 10, n % 10;
      DecimalRoundTrip(q);
      DecimalValueSnoc(NatToDecimal(q), d);
      assert NatToDecimal(n) == NatToDecimal(q) + [DigitChar(d)];
      assert n == 10 * q + d;
    }
  }

  /**
   * `String(v)` on values parsed from JSON; None where it throws. An object
   * converts to `[object Object]` unless it has its own `toString` property,
   * which (not being callable) leaves no way to a primitive value; arrays
   * join their elements' strings with commas.
   */
  function ToJsString(v: Json): (r: Option<string>)
    ensures v.Str? ==> r == Some(v.s)
    ensures !v.Arr? && !v.Obj? ==> r.Some?
    ensures v.Obj? ==> (r.None? <==> "toString" in v.fields)
    decreases v, 1
  {
    match v
    case Undefined => Some("undefined")
    case Null => Some("null")
    case Bool(b) => Some(if b then "true" else "false")
    case Num(n) => Some(if n < 0 then "-" + NatToDecimal(-n) else NatToDecimal(n))
    case Str(s) => Some(s)
    case Arr(items) => ElementsToString(v, 0)
    case Obj(fields) => if "toString" in fields then None else Some("[object Object]")
  }

  /** `Array.prototype.join(",")` from index `i` on: `null` and `undefined` elements contribute nothing. */
  function ElementsToString(v: Json, i: nat): Option<string>
    requires v.Arr? && i <= |v.items|
    decreases v, 0, |v.items| - i
  {
    if i == |v.items| then Some("")
    else
      var e := v.items[i];
      var piece := if e.Undefined? || e.Null? then Some("") else ToJsString(e);
      match piece
      case None => None
      case Some(p) =>
        if i + 1 == |v.items| then Some(p)
        else
          match ElementsToString(v, i + 1)
          case None => None
          case Some(rest) => Some(p + "," + rest)
  }

  /** `String(n)` for an integer is its decimal digits, with a minus sign when negative. */
  lemma NumberToString(n: int)
    ensures n >= 0 ==> ToJsString(Num(n)) == Some(NatToDecimal(n)) && DecimalValue(NatToDecimal(n)) == n
    ensures n < 0 ==> ToJsString(Num(n)) == Some("-" + NatToDecimal(-n)) && DecimalValue(NatToDecimal(-n)) == -n
  {
    if n >= 0 { DecimalRoundTrip(n); } else { DecimalRoundTrip(-n); }
  }

  /** The `TypeError` `String(v)` throws for an object with its own `toString`. */
  const ConversionError := JsError("TypeError", "Cannot convert object to primitive value")

  /** A thrown JavaScript error, by its `name` and `message`. */
  datatype JsError = JsError(name: string, message: string)

  /** `String(err?.message || err)`: the message, or for an error without one its `toString()`, which is its name. */
  function ErrorDetails(err: JsError): (r: string)
    ensures err.message != "" ==> r == err.message
    ensures err.message == "" ==> r == err.name
  {
    if err.message != "" then err.message else err.name
  }
}
