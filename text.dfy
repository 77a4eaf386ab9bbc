/**
 * String operations of JavaScript that the inventory code relies on:
 * `Array.prototype.join`, number-to-string conversion of integers,
 * `toFixed(2)` on a price held in cents, `trim`, `toLowerCase`,
 * `toUpperCase` and `includes`. Each comes with an independent partner
 * (a parser, a slice characterisation, an index characterisation).
 */
module Text {
  import opened Wrappers

  // ---------------------------------------------------------------------
  // Array.prototype.join

  /** `parts.join(sep)`: the parts with `sep` between neighbours. */
  function Join(parts: seq<string>, sep: string): (r: string)
    ensures |parts| == 0 ==> r == ""
    ensures |parts| > 0 ==> |r| >= |parts[0]| && r[..|parts[0]|] == parts[0]
    decreases |parts|
  {
    if |parts| == 0 then ""
    else if |parts| == 1 then parts[0]
    else parts[0] + sep + Join(parts[1..], sep)
  }

  // ---------------------------------------------------------------------
  // Integers as JavaScript prints them

  predicate IsDigit(c: char) {
    '0' <= c <= '9'
  }

  function Digit(d: nat): (c: char)
    requires d < 10
    ensures IsDigit(c) && c as int - '0' as int == d
  {
    ('0' as int + d) as char
  }

  /** The character set of a number rendered by `NatToString`, `IntToString` or `FormatCents`. */
  predicate IsNumeral(s: string) {
    forall i :: 0 <= i < |s| ==> IsDigit(s[i]) || s[i] == '-' || s[i] == '.'
  }

  /** Decimal digits of `n`, without leading zeros. */
  function NatToString(n: nat): (r: string)
    ensures |r| > 0 && IsDigit(r[0])
    ensures forall i :: 0 <= i < |r| ==> IsDigit(r[i])
    decreases n
  {
    if n < 10 then [Digit(n)] else NatToString(n / 10) + [Digit(n % 10)]
  }

  /** `String(i)` for an integer `i` (below 10^21, where JavaScript switches to exponent form). */
  function IntToString(i: int): (r: string)
    ensures |r| > 0 && IsNumeral(r)
    ensures (i < 0) == (r[0] == '-')
  {
    if i < 0 then "-" + NatToString(-i) else NatToString(i)
  }

  /** `(c / 100).toFixed(2)` for an amount `c` in cents: integer part, a dot, two digits. */
  function FormatCents(c: int): (r: string)
    ensures |r| >= 4 && IsNumeral(r)
    ensures r[|r| - 3] == '.' && IsDigit(r[|r| - 2]) && IsDigit(r[|r| - 1])
    ensures (c < 0) == (r[0] == '-')
  {
    if c < 0 then "-" + FormatUnsignedCents(-c) else FormatUnsignedCents(c)
  }

  function FormatUnsignedCents(c: nat): (r: string)
    ensures |r| >= 4 && IsNumeral(r) && IsDigit(r[0])
    ensures r[|r| - 3] == '.' && IsDigit(r[|r| - 2]) && IsDigit(r[|r| - 1])
  {
    NatToString(c / 100) + "." + [Digit(c % 100 / 10), Digit(c % 10)]
  }

  // Parsers: the inverses of the renderings above.

  function DigitValue(c: char): Option<nat> {
    if IsDigit(c) then Some(c as int - '0' as int) else None
  }

  /** A non-empty run of decimal digits, read as a natural number. */
  function ParseDigits(s: string): Option<nat>
    decreases |s|
  {
    if |s| == 0 then None
    else
      var d := DigitValue(s[|s| - 1]);
      if d.None? then None
      else if |s| == 1 then d
      else
        match ParseDigits(s[..|s| - 1])
        case None => None
        case Some(v) => Some(v * 10 + d.value)
  }

  function ParseInt(s: string): Option<int> {
    if |s| > 0 && s[0] == '-' then
      match ParseDigits(s[1..])
      case None => None
      case Some(v) => if v == 0 then None else Some(-(v as int))
    else
      match ParseDigits(s)
      case None => None
      case Some(v) => Some(v)
  }

  function ParseUnsignedCents(s: string): Option<nat> {
    if |s| < 4 || s[|s| - 3] != '.' then None
    else
      match (ParseDigits(s[..|s| - 3]), DigitValue(s[|s| - 2]), DigitValue(s[|s| - 1]))
      case (Some(whole), Some(d1), Some(d2)) => Some(whole * 100 + d1 * 10 + d2)
      case _ => None
  }

  function ParseCents(s: string): Option<int> {
    if |s| > 0 && s[0] == '-' then
      match ParseUnsignedCents(s[1..])
      case None => None
      case Some(v) => if v == 0 then None else Some(-(v as int))
    else
      match ParseUnsignedCents(s)
      case None => None
      case Some(v) => Some(v)
  }

  lemma {:induction false} NatToStringRoundTrip(n: nat)
    ensures ParseDigits(NatToString(n)) == Some(n)
    decreases n
  {
    if n >= 10 {
      var s := NatToString(n);
      assert s[..|s| - 1] == NatToString(n / 10);
      NatToStringRoundTrip(n / 10);
    }
  }

  /** Reading back a printed integer gives the integer. */
  lemma IntToStringRoundTrip(i: int)
    ensures ParseInt(IntToString(i)) == Some(i)
  {
    if i < 0 {
      assert IntToString(i)[1..] == NatToString(-i);
      NatToStringRoundTrip(-i);
    } else {
      NatToStringRoundTrip(i);
    }
  }

  /** Reading back a price or value printed with two decimals gives the amount in cents. */
  lemma FormatCentsRoundTrip(c: int)
    ensures ParseCents(FormatCents(c)) == Some(c)
  {
    var u := if c < 0 then -c else c;
    UnsignedCentsRoundTrip(u);
    if c < 0 {
      assert FormatCents(c)[1..] == FormatUnsignedCents(u);
    }
  }

  /** Helper: the unsigned rendering reads back. */
  lemma UnsignedCentsRoundTrip(u: nat)
    ensures ParseUnsignedCents(FormatUnsignedCents(u)) == Some(u)
  {
    var whole, d1, d2 := u / 100, u % 100 / 10, u % 10;
    var s := FormatUnsignedCents(u);
    assert s[..|s| - 3] == NatToString(whole);
    NatToStringRoundTrip(whole);
    assert DigitValue(s[|s| - 2]) == Some(d1);
    assert DigitValue(s[|s| - 1]) == Some(d2);
    CentsDigits(u);
  }

  /** Helper: a number of cents is its whole part and its two decimal digits. */
  lemma CentsDigits(u: nat)
    ensures (u / 100) * 100 + (u % 100 / 10) * 10 + u % 10 == u
  {
    var q, r := u / 100, u % 100;
    var a, b := r / 10, r % 10;
    assert u == 100 * q + r && 0 <= r < 100;
    assert r == 10 * a + b && 0 <= b < 10;
    assert u == 10 * (10 * q + a) + b;
    assert u % 10 == b;
  }

  // ---------------------------------------------------------------------
  // String.prototype.trim

  /** WhiteSpace and LineTerminator code points of ECMAScript, which `trim` removes. */
  predicate IsWhitespace(c: char) {
    var k := c as int;
    (0x09 <= k <= 0x0D) || k == 0x20 || k == 0xA0 || k == 0x1680
    || (0x2000 <= k <= 0x200A) || k == 0x2028 || k == 0x2029
    || k == 0x202F || k == 0x205F || k == 0x3000 || k == 0xFEFF
  }

  function TrimStart(s: string): (r: string)
    ensures |r| <= |s| && r == s[|s| - |r|..]
    ensures |r| == 0 || !IsWhitespace(r[0])
    ensures forall i :: 0 <= i < |s| - |r| ==> IsWhitespace(s[i])
    decreases |s|
  {
    if |s| > 0 && IsWhitespace(s[0]) then TrimStart(s[1..]) else s
  }

  function TrimEnd(s: string): (r: string)
    ensures |r| <= |s| && r == s[..|r|]
    ensures |r| == 0 || !IsWhitespace(r[|r| - 1])
    ensures forall i :: |r| <= i < |s| ==> IsWhitespace(s[i])
    decreases |s|
  {
    if |s| > 0 && IsWhitespace(s[|s| - 1]) then TrimEnd(s[..|s| - 1]) else s
  }

  /** `s.trim()`: `s` without its leading and trailing white space. */
  function Trim(s: string): (r: string)
    ensures |r| == 0 || (!IsWhitespace(r[0]) && !IsWhitespace(r[|r| - 1]))
    ensures LeadingSpace(s) + |r| <= |s| && r == s[LeadingSpace(s)..LeadingSpace(s) + |r|]
  {
    TrimEnd(TrimStart(s))
  }

  /** How many characters `trim` removes in front. */
  function LeadingSpace(s: string): nat {
    |s| - |TrimStart(s)|
  }

  /** Only white space is removed, on both sides. */
  lemma TrimRemovesOnlyWhitespace(s: string, i: int)
    requires 0 <= i < |s|
    requires i < LeadingSpace(s) || LeadingSpace(s) + |Trim(s)| <= i
    ensures IsWhitespace(s[i])
  {
    var t := TrimStart(s);
    if i >= LeadingSpace(s) {
      assert s[i] == t[i - LeadingSpace(s)];
    }
  }

  /** Trimming twice is trimming once, so the dialogs' own `trim` before validation changes nothing. */
  lemma TrimIdempotent(s: string)
    ensures Trim(Trim(s)) == Trim(s)
  {
  }

  // ---------------------------------------------------------------------
  // Case mapping for the Latin and Cyrillic letters of the UI's two languages

  predicate IsUpperLetter(c: char) {
    ('A' <= c <= 'Z') || (0x400 <= c as int <= 0x42F)
  }

  predicate IsLowerLetter(c: char) {
    ('a' <= c <= 'z') || (0x430 <= c as int <= 0x45F)
  }

  function LowerChar(c: char): (r: char)
    ensures !IsUpperLetter(r)
    ensures !IsUpperLetter(c) ==> r == c
  {
    if 'A' <= c <= 'Z' then (c as int + 32) as char
    else if 0x410 <= c as int <= 0x42F then (c as int + 0x20) as char
    else if 0x400 <= c as int <= 0x40F then (c as int + 0x50) as char
    else c
  }

  function UpperChar(c: char): (r: char)
    ensures !IsLowerLetter(r)
    ensures !IsLowerLetter(c) ==> r == c
  {
    if 'a' <= c <= 'z' then (c as int - 32) as char
    else if 0x430 <= c as int <= 0x44F then (c as int - 0x20) as char
    else if 0x450 <= c as int <= 0x45F then (c as int - 0x50) as char
    else c
  }

  /** `s.toLowerCase()`. */
  function Lower(s: string): (r: string)
    ensures |r| == |s|
  {
    seq(|s|, i requires 0 <= i < |s| => LowerChar(s[i]))
  }

  /** `s.toUpperCase()`. */
  function Upper(s: string): (r: string)
    ensures |r| == |s|
  {
    seq(|s|, i requires 0 <= i < |s| => UpperChar(s[i]))
  }

  lemma LowerUpperChar(c: char)
    ensures LowerChar(UpperChar(c)) == LowerChar(c)
  {
  }

  /** Lower-casing forgets whether the text was upper-cased first. */
  lemma LowerOfUpper(s: string)
    ensures Lower(Upper(s)) == Lower(s)
  {
    forall i | 0 <= i < |s|
      ensures Lower(Upper(s))[i] == Lower(s)[i]
    {
      LowerUpperChar(s[i]);
    }
  }

  /** Lower-casing twice is lower-casing once. */
  lemma LowerOfLower(s: string)
    ensures Lower(Lower(s)) == Lower(s)
  {
    forall i | 0 <= i < |s|
      ensures Lower(Lower(s))[i] == Lower(s)[i]
    {
      assert !IsUpperLetter(Lower(s)[i]);
    }
  }

  // ---------------------------------------------------------------------
  // String.prototype.includes

  predicate StartsWith(s: string, prefix: string) {
    |prefix| <= |s| && s[..|prefix|] == prefix
  }

  /** `s.includes(sub)`. */
  predicate Contains(s: string, sub: string)
    decreases |s|
  {
    StartsWith(s, sub) || (|s| > 0 && Contains(s[1..], sub))
  }

  predicate OccursAt(s: string, sub: string, i: int) {
    0 <= i <= |s| - |sub| && s[i..i + |sub|] == sub
  }

  /** `includes` holds exactly when `sub` occurs at some position of `s`. */
  lemma {:induction false} ContainsAt(s: string, sub: string)
    ensures Contains(s, sub) <==> exists i :: OccursAt(s, sub, i)
    decreases |s|
  {
    if |s| > 0 {
      ContainsAt(s[1..], sub);
      if exists i :: OccursAt(s, sub, i) {
        var i :| OccursAt(s, sub, i);
        if i > 0 {
          assert OccursAt(s[1..], sub, i - 1);
        } else {
          assert StartsWith(s, sub);
        }
      }
      if Contains(s[1..], sub) {
        var j :| OccursAt(s[1..], sub, j);
        assert OccursAt(s, sub, j + 1);
      }
      if StartsWith(s, sub) {
        assert OccursAt(s, sub, 0);
      }
    } else {
      if exists i :: OccursAt(s, sub, i) {
        var i :| OccursAt(s, sub, i);
        assert StartsWith(s, sub);
      }
      if StartsWith(s, sub) {
        assert OccursAt(s, sub, 0);
      }
    }
  }

  lemma ContainsEmpty(s: string)
    ensures Contains(s, "")
  {
    assert s[..0] == "";
  }

  // ---------------------------------------------------------------------
  // String.prototype.split, first piece

  /** `s.split(sep)[0]` for a one-character separator: the text before its first occurrence. */
  function Before(s: string, sep: char): (r: string)
    ensures |r| <= |s| && r == s[..|r|]
    ensures sep !in r
    ensures |r| < |s| ==> s[|r|] == sep
    decreases |s|
  {
    if s == [] || s[0] == sep then ""
    else
      assert s == [s[0]] + s[1..];
      [s[0]] + Before(s[1..], sep)
  }

  /** The piece before the separator is recovered from any text that follows it. */
  lemma {:induction false} BeforeOfJoin(a: string, sep: char, rest: string)
    requires sep !in a
    ensures Before(a + [sep] + rest, sep) == a
    decreases |a|
  {
    if a != [] {
      assert (a + [sep] + rest)[1..] == a[1..] + [sep] + rest;
      BeforeOfJoin(a[1..], sep, rest);
      assert [a[0]] + a[1..] == a;
    }
  }
}
