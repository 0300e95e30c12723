/** MongoDB ObjectIds as their text. Both the mongoose backend and the C#
    driver convert a route id to an ObjectId before comparing it with the
    stored `_id`, and an ObjectId's text reads back as 24 lower-case
    hexadecimal digits; so two texts name the same ObjectId exactly when
    their digits have the same values. */
module ObjectIds {
  import opened Text

  /** `ObjectId.TryParse` / mongoose's cast: 24 hexadecimal digits, in
      either case. */
  predicate IsObjectIdText(s: string) {
    |s| == 24 && forall i :: 0 <= i < |s| ==> HexDigit(s[i])
  }

  predicate LowerHexDigit(c: char) {
    ('0' <= c <= '9') || ('a' <= c <= 'f')
  }

  /** The text an ObjectId reads back as. */
  predicate IsCanonicalId(s: string) {
    |s| == 24 && forall i :: 0 <= i < |s| ==> LowerHexDigit(s[i])
  }

  /** The value of one hexadecimal digit. */
  function HexValue(c: char): (v: nat)
    requires HexDigit(c)
    ensures v < 16
  {
    if '0' <= c <= '9' then (c as int - '0' as int) as nat
    else if 'a' <= c <= 'f' then (c as int - 'a' as int + 10) as nat
    else (c as int - 'A' as int + 10) as nat
  }

  function LowerDigit(c: char): (d: char)
    requires HexDigit(c)
    ensures LowerHexDigit(d) && HexValue(d) == HexValue(c)
  {
    if 'A' <= c <= 'F' then (c as int - 'A' as int + 'a' as int) as char else c
  }

  /** The id a text converts to, written as it reads back. */
  function CanonicalId(s: string): (k: string)
    requires IsObjectIdText(s)
    ensures IsCanonicalId(k)
    ensures forall i :: 0 <= i < 24 ==> HexValue(k[i]) == HexValue(s[i])
  {
    seq(24, i requires 0 <= i < 24 => LowerDigit(s[i]))
  }

  /** Two texts of the same ObjectId: their digits agree in value,
      position by position, whatever their case. */
  predicate SameObjectIdText(a: string, b: string) {
    && IsObjectIdText(a) && IsObjectIdText(b)
    && forall i :: 0 <= i < 24 ==> HexValue(a[i]) == HexValue(b[i])
  }

  /** Two lower-case digits with the same value are the same digit. */
  lemma LowerDigitByValue(c: char, d: char)
    requires LowerHexDigit(c) && LowerHexDigit(d)
    ensures HexValue(c) == HexValue(d) <==> c == d
  {
  }

  /** Two texts convert to the same ObjectId exactly when their digits
      agree in value: case does not matter. */
  lemma SameObjectId(a: string, b: string)
    requires IsObjectIdText(a) && IsObjectIdText(b)
    ensures CanonicalId(a) == CanonicalId(b) <==> SameObjectIdText(a, b)
  {
    var ka, kb := CanonicalId(a), CanonicalId(b);
    if forall i :: 0 <= i < 24 ==> HexValue(a[i]) == HexValue(b[i]) {
      forall i | 0 <= i < 24
        ensures ka[i] == kb[i]
      {
        LowerDigitByValue(ka[i], kb[i]);
      }
    }
  }

  /** A stored id converts to itself. */
  lemma CanonicalIdFixed(s: string)
    requires IsCanonicalId(s)
    ensures IsObjectIdText(s) && CanonicalId(s) == s
  {
  }
}
