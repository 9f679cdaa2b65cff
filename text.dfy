/**
 * String helpers shared by the backend and the frontend: the two notions of
 * "blank" (Java's trim and JavaScript's trim), ASCII case folding, substring
 * search, decimal rendering of integers and the character-code order.
 */
module Text {

  /** A code unit that Java's String.trim() strips: everything at or below U+0020. */
  predicate IsJavaTrimmed(c: char)
  {
    c <= ' '
  }

  /** Bean Validation's @NotBlank fails exactly when the trimmed string is empty. */
  predicate IsJavaBlank(s: string)
  {
    forall i :: 0 <= i < |s| ==> IsJavaTrimmed(s[i])
  }

  /** A character that String.prototype.trim() strips (WhiteSpace and LineTerminator of ECMAScript). */
  predicate IsJsSpace(c: char)
  {
    c == ' ' || c == '\t' || c == '\n' || c == '\r' || c == '\U{000B}' || c == '\U{000C}'
    || c == '\U{00A0}' || c == '\U{1680}' || ('\U{2000}' <= c <= '\U{200A}')
    || c == '\U{2028}' || c == '\U{2029}' || c == '\U{202F}' || c == '\U{205F}'
    || c == '\U{3000}' || c == '\U{FEFF}'
  }

  /** `s.trim() === ''` in JavaScript. */
  predicate IsJsBlank(s: string)
  {
    forall i :: 0 <= i < |s| ==> IsJsSpace(s[i])
  }

  function LowerChar(c: char): (r: char)
    ensures 'A' <= c <= 'Z' ==> 'a' <= r <= 'z'
    ensures !('A' <= c <= 'Z') ==> r == c
  {
    if 'A' <= c <= 'Z' then (c as int + 32) as char else c
  }

  /** Case folding, restricted to the ASCII letters. */
  function Lower(s: string): (r: string)
    ensures |r| == |s|
    ensures forall i :: 0 <= i < |s| ==> r[i] == LowerChar(s[i])
  {
    if s == [] then [] else [LowerChar(s[0])] + Lower(s[1..])
  }

  /** `needle` occurs in `hay` starting at position i. */
  predicate OccursAt(hay: string, needle: string, i: int)
  {
    0 <= i && i + |needle| <= |hay| && hay[i..i + |needle|] == needle
  }

  /** `hay.includes(needle)` / SQL `LIKE %needle%` without wildcards. */
  predicate Contains(hay: string, needle: string)
  {
    exists i :: 0 <= i <= |hay| - |needle| && OccursAt(hay, needle, i)
  }

  /** Case-insensitive containment, as Spring Data's ContainingIgnoreCase. */
  predicate ContainsIgnoreCase(hay: string, needle: string)
  {
    Contains(Lower(hay), Lower(needle))
  }

  lemma {:induction false} EmptyIsContained(hay: string)
    ensures Contains(hay, "")
  {
    assert OccursAt(hay, "", 0);
  }

  /** A case-sensitive match is also a case-insensitive one. */
  lemma {:induction false} ContainsIsCaseInsensitive(hay: string, needle: string)
    requires Contains(hay, needle)
    ensures ContainsIgnoreCase(hay, needle)
  {
    var i :| 0 <= i <= |hay| - |needle| && OccursAt(hay, needle, i);
    var lh, ln := Lower(hay), Lower(needle);
    assert forall j | 0 <= j < |needle| :: lh[i + j] == LowerChar(hay[i + j]) && hay[i + j] == needle[j];
    assert lh[i..i + |ln|] == ln;
    assert OccursAt(lh, ln, i);
  }

  function DigitChar(d: int): (c: char)
    requires 0 <= d < 10
    ensures '0' <= c <= '9' && c as int - '0' as int == d
  {
    (d + '0' as int) as char
  }

  /** Decimal digits of a natural number, without leading zeros. */
  function NatToString(n: nat): (s: string)
    ensures |s| > 0
    ensures forall i :: 0 <= i < |s| ==> '0' <= s[i] <= '9'
    ensures |s| > 1 ==> s[0] != '0'
    decreases n
  {
    if n < 10 then [DigitChar(n)] else NatToString(n / 10) + [DigitChar(n % 10)]
  }

  /** Java's Long.toString / string concatenation of an integer. */
  function IntToString(n: int): (s: string)
    ensures |s| > 0
    ensures (n < 0) == (s[0] == '-')
  {
    if n < 0 then "-" + NatToString(-n) else NatToString(n)
  }

  /** The value of a string of decimal digits. */
  function DigitsValue(s: string): nat
    requires forall i :: 0 <= i < |s| ==> '0' <= s[i] <= '9'
  {
    if s == [] then 0 else 10 * DigitsValue(s[..|s| - 1]) + (s[|s| - 1] as int - '0' as int)
  }

  lemma {:induction false} DigitsOfNat(n: nat)
    ensures DigitsValue(NatToString(n)) == n
    decreases n
  {
    if n >= 10 {
      var s := NatToString(n);
      assert s[..|s| - 1] == NatToString(n / 10);
      DigitsOfNat(n / 10);
    }
  }

  /** Distinct integers are rendered as distinct strings, so messages that embed an id identify it. */
  lemma {:induction false} IntToStringInjective(a: int, b: int)
    requires IntToString(a) == IntToString(b)
    ensures a == b
  {
    var sa, sb := IntToString(a), IntToString(b);
    if a < 0 {
      assert b < 0;
      assert sa[1..] == NatToString(-a);
      assert sb[1..] == NatToString(-b);
      DigitsOfNat(-a);
      DigitsOfNat(-b);
    } else {
      assert b >= 0 && NatToString(a) == NatToString(b);
      DigitsOfNat(a);
      DigitsOfNat(b);
    }
  }

  /** Lexicographic order on character codes (ORDER BY on a binary collation). */
  predicate StrLe(a: string, b: string)
    decreases |a|
  {
    a == [] || (b != [] && (a[0] < b[0] || (a[0] == b[0] && StrLe(a[1..], b[1..]))))
  }

  lemma {:induction false} StrLeTotal(a: string, b: string)
    ensures StrLe(a, b) || StrLe(b, a)
    decreases |a|
  {
    if a != [] && b != [] && a[0] == b[0] {
      StrLeTotal(a[1..], b[1..]);
    }
  }

  lemma {:induction false} StrLeAntisymmetric(a: string, b: string)
    requires StrLe(a, b) && StrLe(b, a)
    ensures a == b
    decreases |a|
  {
    if a != [] {
      StrLeAntisymmetric(a[1..], b[1..]);
      assert a == [a[0]] + a[1..];
      assert b == [b[0]] + b[1..];
    }
  }

  lemma {:induction false} StrLeTransitive(a: string, b: string, c: string)
    requires StrLe(a, b) && StrLe(b, c)
    ensures StrLe(a, c)
    decreases |a|
  {
    if a != [] && a[0] == b[0] && b[0] == c[0] {
      StrLeTransitive(a[1..], b[1..], c[1..]);
    }
  }
}
