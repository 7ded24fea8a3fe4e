/**
 * Request bodies. A JSON body is a JavaScript object: a map from distinct
 * key strings to JSON values. A body string of 24 hexadecimal digits (an
 * ObjectId, such as a project or a user reference) is written `Oid`, so a
 * `Str` never holds one; Stringify gives its text back. JSON objects are not
 * values here.
 */
module Values {

  import opened Wrappers
  import opened Text

  /** Document and user identifiers (MongoDB ObjectIds). */
  type Id = nat
  type UserId = Id

  datatype Value =
    | Null               // null, and what reading an absent key yields (undefined)
    | Bool(b: bool)
    | Num(n: int)
    | Str(s: string)
    | Oid(id: Id)
    | Arr(items: seq<Value>)

  /** `req.body`: its keys are `Object.keys(req.body)`. */
  type Body = map<string, Value>

  /** `req.body[key]`, where an absent key reads as undefined. */
  function Field(body: Body, key: string): (v: Value)
    ensures key !in body ==> v == Null
    ensures key in body ==> v == body[key]
  {
    if key in body then body[key] else Null
  }

  /** JavaScript truthiness, as used by `req.body.assignedTo || req.user._id`. */
  predicate Truthy(v: Value) {
    match v
    case Null => false
    case Bool(b) => b
    case Num(n) => n != 0
    case Str(s) => s != ""
    case Oid(_) => true
    case Arr(_) => true
  }

  /** `notEmpty()` of the request validators: absent, null, `""` and `[]` are empty. */
  predicate NotEmpty(v: Value) {
    match v
    case Null => false
    case Str(s) => s != ""
    case Arr(items) => items != []
    case _ => true
  }

  /** `Object.keys(body).every(k => allowed.includes(k))`. */
  predicate Whitelisted(body: Body, allowed: set<string>) {
    forall k :: k in body ==> k in allowed
  }

  /** The character of one digit below 16, in lower case. */
  function DigitChar(d: nat): (c: char)
    requires d < 16
    ensures d < 10 ==> c as int == '0' as int + d
    ensures 10 <= d ==> c as int == 'a' as int + d - 10
  {
    if d < 10 then ('0' as int + d) as char else ('a' as int + d - 10) as char
  }

  predicate IsDigit(c: char) {
    '0' <= c <= '9'
  }

  /** The decimal digits of a natural number, most significant first, without leading zeros. */
  function NaturalText(n: nat): (r: string)
    ensures r != [] && forall i :: 0 <= i < |r| ==> IsDigit(r[i])
    ensures |r| > 1 ==> r[0] != '0'
  {
    if n < 10 then [DigitChar(n)] else NaturalText(n / 10) + [DigitChar(n % 10)]
  }

  /** The number a string of decimal digits denotes. */
  function DigitsValue(s: string): nat
    requires forall i :: 0 <= i < |s| ==> IsDigit(s[i])
  {
    if s == [] then 0
    else
      assert IsDigit(s[|s| - 1]);
      DigitsValue(s[..|s| - 1]) * 10 + (s[|s| - 1] as int - '0' as int)
  }

  /** Reading the digits back gives the number: the decimal text loses nothing. */
  lemma {:induction false} NaturalTextValue(n: nat)
    ensures DigitsValue(NaturalText(n)) == n
  {
    if n >= 10 {
      var s := NaturalText(n);
      assert s[..|s| - 1] == NaturalText(n / 10);
      NaturalTextValue(n / 10);
    }
  }

  /** `String(n)` for an integer: its decimal digits, after a minus sign when it is negative. */
  function DecimalText(n: int): (r: string)
    ensures r != [] && forall i :: 0 <= i < |r| ==> IsDigit(r[i]) || r[i] == '-'
    ensures n < 0 <==> r[0] == '-'
  {
    if n < 0 then "-" + NaturalText(-n) else NaturalText(n)
  }

  /** The `width` lowest hexadecimal digits of a number, most significant first. */
  function HexText(n: nat, width: nat): (r: string)
    ensures |r| == width
    ensures forall i :: 0 <= i < |r| ==> IsDigit(r[i]) || 'a' <= r[i] <= 'f'
  {
    if width == 0 then [] else HexText(n / 16, width - 1) + [DigitChar(n % 16)]
  }

  /**
   * `String(v)` for a value that is neither null nor an array: the text the
   * request validators test, that the `trim()` sanitizer works on, and that a
   * Mongoose `String` path stores. An ObjectId is the 24 hexadecimal digits
   * the client sent.
   */
  function Stringify(v: Value): (r: Option<string>)
    ensures r.Some? <==> !v.Null? && !v.Arr?
    ensures v.Str? ==> r == Some(v.s)
    ensures !v.Str? && r.Some? ==> r.value != [] && forall i :: 0 <= i < |r.value| ==> !IsSpace(r.value[i])
  {
    match v
    case Null => None
    case Bool(b) => Some(if b then "true" else "false")
    case Num(n) => Some(DecimalText(n))
    case Str(s) => Some(s)
    case Oid(id) => Some(HexText(id, 24))
    case Arr(_) => None
  }

  /**
   * The `trim()` sanitizer of the request validators on one key: a value
   * with a text is replaced by that text trimmed; null, arrays and an absent
   * key are left as they are.
   */
  function TrimAt(body: Body, key: string): (r: Body)
    ensures r.Keys == body.Keys
    ensures forall k :: k in body && k != key ==> r[k] == body[k]
    ensures key in body && Stringify(body[key]).Some? ==> r[key] == Str(Trim(Stringify(body[key]).value))
    ensures key in body && Stringify(body[key]).None? ==> r[key] == body[key]
  {
    if key in body && Stringify(body[key]).Some? then body[key := Str(Trim(Stringify(body[key]).value))] else body
  }
}
