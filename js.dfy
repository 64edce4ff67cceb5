/** JavaScript values and the few built-in string operations the route handlers rely on. */
module Js {

  datatype Option<+T> = None | Some(value: T)

  /** A value the JSON body parser can hand over for one field of `req.body`:
      numbers are whole, arrays and objects are opaque (both are truthy and not strings). */
  datatype JsonValue = JString(s: string) | JNumber(n: int) | JBool(b: bool) | JNull | JCompound

  /** JavaScript truthiness of a body field; an absent field reads as `undefined`. */
  predicate Truthy(v: Option<JsonValue>)
  {
    match v
    case None => false
    case Some(JString(s)) => s != ""
    case Some(JNumber(n)) => n != 0
    case Some(JBool(b)) => b
    case Some(JNull) => false
    case Some(JCompound) => true
  }

  /** Truthiness of a nullable string (a database column or a string-typed field). */
  predicate TruthyString(s: Option<string>)
  {
    s.Some? && s.value != ""
  }

  /** `s.match(/^prefix/)` for a literal prefix. */
  predicate StartsWith(s: string, prefix: string)
  {
    |prefix| <= |s| && s[..|prefix|] == prefix
  }

  /** `\d` in a JavaScript regular expression without the `u` flag. */
  predicate IsDigit(c: char)
  {
    '0' <= c <= '9'
  }

  predicate AllDigits(s: string)
  {
    forall i :: 0 <= i < |s| ==> IsDigit(s[i])
  }

  function DigitValue(c: char): (d: nat)
    requires IsDigit(c)
    ensures d < 10
  {
    c as int - '0' as int
  }

  /** `parseInt(s, 10)` of a string made of decimal digits only. */
  function ParseDecimal(s: string): nat
    requires AllDigits(s)
  {
    if s == [] then 0 else 10 * ParseDecimal(s[..|s| - 1]) + DigitValue(s[|s| - 1])
  }

  /** Parsing two and four digits, the shapes the date validator splits out. */
  lemma ParseDecimal2(s: string)
    requires |s| == 2 && AllDigits(s)
    ensures ParseDecimal(s) == 10 * DigitValue(s[0]) + DigitValue(s[1])
  {
    assert s[..1][..0] == [];
    assert ParseDecimal(s[..1]) == DigitValue(s[0]);
  }

  lemma ParseDecimal4(s: string)
    requires |s| == 4 && AllDigits(s)
    ensures ParseDecimal(s) == 1000 * DigitValue(s[0]) + 100 * DigitValue(s[1]) + 10 * DigitValue(s[2]) + DigitValue(s[3])
  {
    assert s[..3][..2] == s[..2];
    assert s[..2][..1] == s[..1];
    assert s[..1][..0] == [];
    assert ParseDecimal(s[..1]) == DigitValue(s[0]);
    assert ParseDecimal(s[..2]) == 10 * DigitValue(s[0]) + DigitValue(s[1]);
    assert ParseDecimal(s[..3]) == 100 * DigitValue(s[0]) + 10 * DigitValue(s[1]) + DigitValue(s[2]);
  }

  /** The inverse of `Split`: the parts glued back together with the separator. */
  function Join(parts: seq<string>, sep: char): string
    requires |parts| >= 1
  {
    if |parts| == 1 then parts[0] else parts[0] + [sep] + Join(parts[1..], sep)
  }

  /** `s.split(sep)` for a one-character separator: always at least one part (the empty
      string splits into `[""]`), empty parts kept, no part holds the separator, and
      joining the parts gives `s` back. */
  function Split(s: string, sep: char): (parts: seq<string>)
    ensures |parts| >= 1
    ensures forall i :: 0 <= i < |parts| ==> sep !in parts[i]
    ensures Join(parts, sep) == s
  {
    if s == [] then [""]
    else
      var rest := Split(s[1..], sep);
      if s[0] == sep then [""] + rest
      else [[s[0]] + rest[0]] + rest[1..]
  }

  /** What the movie and person routes do with a `characters` column:
      `row.characters ? JSON.parse(row.characters) : []`. */
  datatype Characters = NoCharacters | ParsedJson(text: string)

  function CharactersOf(raw: Option<string>): (c: Characters)
    ensures c == NoCharacters <==> !TruthyString(raw)
    ensures c.ParsedJson? ==> raw == Some(c.text)
  {
    if TruthyString(raw) then ParsedJson(raw.value) else NoCharacters
  }

  /** `Number(x)` of a nullable numeric column: `Number(null)` is 0. */
  function ToNumber(x: Option<real>): real
  {
    if x.Some? then x.value else 0.0
  }
}
