/** The paging arithmetic of `GET /videos` in backend/index.js: the query
    parameters read with JavaScript's `parseInt`, the `|| default` fallback,
    the number of documents skipped and the page count reported back. */
module Pagination {
  import opened Wrappers
  import opened Text

  /** What `parseInt` can return: NaN or a whole number. */
  datatype JsInt = NaN | Int(value: int)

  const DefaultPage := 1
  const DefaultLimit := 12

  /** The base `parseInt` reads in: ten, or sixteen after a "0x" prefix. */
  datatype Radix = Decimal | Hex {
    function Base(): nat {
      if this == Hex then 16 else 10
    }
  }

  predicate RadixDigit(c: char, radix: Radix) {
    match radix
    case Hex => HexDigit(c)
    case Decimal => '0' <= c <= '9'
  }

  function HexValue(c: char): (v: nat)
    requires HexDigit(c)
    ensures v < 16
  {
    if '0' <= c <= '9' then (c as int - '0' as int) as nat
    else if 'a' <= c <= 'f' then (c as int - 'a' as int + 10) as nat
    else (c as int - 'A' as int + 10) as nat
  }

  function DigitOf(c: char, radix: Radix): (v: nat)
    requires RadixDigit(c, radix)
    ensures v < radix.Base()
  {
    match radix
    case Hex => HexValue(c)
    case Decimal => DigitValue(c)
  }

  /** The longest prefix of `s` made of digits of the radix. */
  function DigitPrefix(s: string, radix: Radix): (z: string)
    ensures |z| <= |s| && z == s[..|z|]
    ensures forall i :: 0 <= i < |z| ==> RadixDigit(z[i], radix)
    ensures |z| < |s| ==> !RadixDigit(s[|z|], radix)
  {
    if |s| == 0 || !RadixDigit(s[0], radix) then ""
    else
      var rest := DigitPrefix(s[1..], radix);
      [s[0]] + rest
  }

  /** The value of a string of digits of the radix. */
  function RadixValue(z: string, radix: Radix): nat
    requires forall i :: 0 <= i < |z| ==> RadixDigit(z[i], radix)
  {
    if |z| == 0 then 0
    else radix.Base() * RadixValue(z[..|z| - 1], radix) + DigitOf(z[|z| - 1], radix)
  }

  /** The digits after the sign: a "0x" or "0X" prefix switches to base
      16, and the longest run of digits that follows is the value; no
      digits at all give nothing. */
  function ParseMagnitude(u: string): Option<nat>
  {
    var hex := |u| >= 2 && u[0] == '0' && (u[1] == 'x' || u[1] == 'X');
    var radix := if hex then Hex else Decimal;
    var z := DigitPrefix(if hex then u[2..] else u, radix);
    if |z| == 0 then None else Some(RadixValue(z, radix))
  }

  /** What follows the leading white space: one optional sign, then the
      magnitude. */
  function ParseSigned(s: string): JsInt
  {
    var negative := |s| > 0 && s[0] == '-';
    var unsigned := if |s| > 0 && (s[0] == '-' || s[0] == '+') then s[1..] else s;
    match ParseMagnitude(unsigned)
    case None => NaN
    case Some(m) => Int(if negative then 0 - m else m)
  }

  /** `parseInt(s)` without a radix argument: leading white space is
      skipped, then a signed number is read. An absent query parameter is
      `undefined`, which reads as the string "undefined" and so gives NaN. */
  function ParseInt(param: Option<string>): (n: JsInt)
    ensures param.None? ==> n == NaN
    ensures param.Some? ==> n == ParseSigned(TrimStart(param.value))
  {
    match param
    case None => NaN
    case Some(text) => ParseSigned(TrimStart(text))
  }

  /** `parseInt(x) || d`: NaN and zero are falsy and give the default. */
  function OrDefault(n: JsInt, d: int): (r: int)
    ensures n.NaN? || n.value == 0 ==> r == d
    ensures n.Int? && n.value != 0 ==> r == n.value
  {
    match n
    case NaN => d
    case Int(v) => if v == 0 then d else v
  }

  datatype Page = Page(page: int, limit: int, skip: int)

  /** The page, the page size and the number of documents skipped. */
  function PageOf(pageParam: Option<string>, limitParam: Option<string>): (p: Page)
    ensures p.page != 0 && p.limit != 0
    ensures p.skip == (p.page - 1) * p.limit
  {
    var page := OrDefault(ParseInt(pageParam), DefaultPage);
    var limit := OrDefault(ParseInt(limitParam), DefaultLimit);
    Page(page, limit, (page - 1) * limit)
  }

  /** `Math.ceil(a / b)` for whole numbers. */
  function CeilDiv(a: int, b: int): (q: int)
    requires b != 0
    ensures b > 0 ==> b * (q - 1) < a <= b * q
    ensures b < 0 ==> b * q <= a < b * (q - 1)
  {
    if b > 0 then -((-a) / b)
    else
      var q := a / b;
      assert b * q <= a < b * (q - 1);
      q
  }

  /** `totalPages`: the page count reported for `total` documents. */
  function TotalPages(total: nat, limit: int): int
    requires limit != 0
  {
    CeilDiv(total, limit)
  }

  // ---------------------------------------------------------------------
  // Properties

  lemma {:induction false} DigitPrefixOfDigits(s: string)
    requires IsDigits(s)
    ensures DigitPrefix(s, Decimal) == s
  {
    if |s| > 0 {
      DigitPrefixOfDigits(s[1..]);
      assert [s[0]] + s[1..] == s;
    }
  }

  lemma {:induction false} RadixValueDecimal(s: string)
    requires IsDigits(s)
    ensures RadixValue(s, Decimal) == ParseDigits(s)
  {
    if |s| > 0 {
      RadixValueDecimal(s[..|s| - 1]);
    }
  }

  /** A numeral without a superfluous leading zero has no "0x" prefix
      and reads as its decimal value. */
  lemma MagnitudeOfDigits(s: string)
    requires |s| >= 1 && IsDigits(s)
    requires |s| >= 2 ==> s[0] != '0'
    ensures ParseMagnitude(s) == Some(ParseDigits(s))
  {
    DigitPrefixOfDigits(s);
    RadixValueDecimal(s);
  }

  lemma JsWhiteSpaceIsNotDigit(c: char)
    requires '0' <= c <= '9' || c == '-'
    ensures !JsWhiteSpace(c)
  {
  }

  /** A JavaScript-printed number reads back as itself in base 10. */
  lemma NatReadsBack(n: nat)
    ensures ParseInt(Some(NatToString(n))) == Int(n)
  {
    var s := NatToString(n);
    JsWhiteSpaceIsNotDigit(s[0]);
    assert TrimStart(s) == s;
    MagnitudeOfDigits(s);
    ParseNatToString(n);
    assert ParseSigned(s) == Int(n);
  }

  /** Every integer printed in decimal, sign included, reads back as itself. */
  lemma IntReadsBack(n: int)
    ensures ParseInt(Some(IntToString(n))) == Int(n)
  {
    if n >= 0 {
      NatReadsBack(n);
    } else {
      var digits := NatToString(-n);
      var s := "-" + digits;
      JsWhiteSpaceIsNotDigit('-');
      assert TrimStart(s) == s;
      assert s[1..] == digits;
      MagnitudeOfDigits(digits);
      ParseNatToString(-n);
      assert ParseSigned(s) == Int(n);
    }
  }

  /** A page or limit given as a positive number is used as given; an
      absent one falls back to the default. */
  lemma PageParameters(page: nat, limit: nat)
    requires page >= 1 && limit >= 1
    ensures PageOf(Some(NatToString(page)), Some(NatToString(limit))) == Page(page, limit, (page - 1) * limit)
    ensures PageOf(None, None) == Page(DefaultPage, DefaultLimit, 0)
  {
    var p := ParseInt(Some(NatToString(page)));
    var l := ParseInt(Some(NatToString(limit)));
    NatReadsBack(page);
    NatReadsBack(limit);
    assert OrDefault(p, DefaultPage) == page;
    assert OrDefault(l, DefaultLimit) == limit;
  }

  /** With a positive limit, the pages 1..totalPages cover every document
      exactly once: document `i` (0-based, in sort order) is on page
      `i / limit + 1`, which is within the page count, and the page after
      the last one skips past every document. */
  lemma PagesCoverTotal(total: nat, limit: int, i: nat)
    requires limit >= 1 && i < total
    ensures var p := i / limit + 1;
      1 <= p <= TotalPages(total, limit) && (p - 1) * limit <= i < p * limit
    ensures TotalPages(total, limit) * limit >= total
  {
    var p := i / limit + 1;
    var t := TotalPages(total, limit);
    assert (p - 1) * limit <= i < p * limit;
    if p > t {
      MulMonotone(p - 1, t, limit);
    }
  }

  lemma MulMonotone(a: int, b: int, c: nat)
    requires a >= b
    ensures a * c >= b * c
  {
  }
}
