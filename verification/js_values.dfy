/** The loosely typed values a Vue prop can carry, and the `String(...)`
    coercion that `parseInt` applies to its argument before reading it. */
module JsValues {
  import opened Wrappers
  import Text
  import opened ParseInt

  /** Numbers from 10^21 up in magnitude print in exponent notation
      (`String(1e21)` is `"1e+21"`); below it an integer prints as its plain
      decimal digits. */
  const PlainLimit: int := 1_000_000_000_000_000_000_000

  /** An integer-valued number that prints as plain decimal digits. */
  type PlainInt = n: int | -PlainLimit < n < PlainLimit

  /** A JavaScript value as the validators see it.  `Num` is an
      integer-valued number below 10^21 in magnitude; `Other` is `null`,
      `undefined`, a boolean or a plain object: a value that is not a number,
      a string or an array and whose conversion to text succeeds without
      starting with an integer. */
  datatype JsValue = Num(n: PlainInt) | Str(s: string) | Arr(items: seq<JsValue>) | Other

  /** The string form of every `Other` value.  `null`, `undefined`, the
      booleans and plain objects all print as text that starts with neither
      a sign nor a digit, which is all that `parseInt` looks at. */
  const OtherText: string := "[object Object]"

  /** `String(v)`: numbers print in decimal, strings are themselves and an
      array prints as its elements' string forms joined by commas. */
  function ToJsString(v: JsValue): (s: string)
    decreases v
  {
    match v
    case Num(n) => ToDecimal(n)
    case Str(s) => s
    case Arr(items) => Text.Join(seq(|items|, i requires 0 <= i < |items| => ToJsString(items[i])))
    case Other => OtherText
  }

  /** `parseInt(v)`, with `None` for `NaN`. */
  function ParseValue(v: JsValue): (r: Option<int>) {
    ParseInt.ParseInt(ToJsString(v))
  }

  /** A number parses to itself. */
  lemma ParseNum(n: PlainInt)
    ensures ParseValue(Num(n)) == Some(n)
  {
    ParseIntToDecimal(n);
  }

  /** `null`, `undefined`, booleans and objects parse to `NaN`. */
  lemma ParseOther()
    ensures ParseValue(Other) == None
  {
  }

  /** An array parses like its first element, since the comma that follows
      the first element's text ends the digit run; an empty array prints as
      `""` and parses to `NaN`. */
  lemma ParseArr(items: seq<JsValue>)
    ensures ParseValue(Arr(items)) == if |items| == 0 then None else ParseValue(items[0])
  {
    var strs := seq(|items|, i requires 0 <= i < |items| => ToJsString(items[i]));
    if |items| >= 2 {
      var t := [Text.Comma] + Text.Join(strs[1..]);
      assert Text.Join(strs) == strs[0] + t;
      ParseIntIgnoresSuffix(strs[0], t);
    }
  }
}
