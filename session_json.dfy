/**
 * The session user the client keeps in localStorage under 'user': the object
 * {id, username, isAdmin}, written with JSON.stringify and read back with
 * JSON.parse. Stringify follows ECMAScript's JSON.stringify for flat objects
 * of primitives (undefined members are dropped, strings are escaped); Parse
 * reads the JSON text such objects produce, and is proved to invert it.
 */
module SessionJson {
  import opened Wrappers
  import opened JsValues
  import Text

  datatype SessionUser = SessionUser(id: JsValue, username: JsValue, isAdmin: JsValue)

  // --------------------------------------------------------------- stringify

  function HexDigit(d: int): (c: char)
    requires 0 <= d < 16
  {
    if d < 10 then (d + '0' as int) as char else (d - 10 + 'a' as int) as char
  }

  /** QuoteJSONString's escape of one code point. */
  function EscapeChar(c: char): (r: string)
    ensures |r| > 0
  {
    if c == '"' then "\\\""
    else if c == '\\' then "\\\\"
    else if c == '\U{0008}' then "\\b"
    else if c == '\U{000C}' then "\\f"
    else if c == '\n' then "\\n"
    else if c == '\r' then "\\r"
    else if c == '\t' then "\\t"
    else if c < ' ' then "\\u00" + [HexDigit(c as int / 16), HexDigit(c as int % 16)]
    else [c]
  }

  function Escape(s: string): string
  {
    if s == [] then [] else EscapeChar(s[0]) + Escape(s[1..])
  }

  function Quote(s: string): string
  {
    "\"" + Escape(s) + "\""
  }

  /** The text of a primitive that is not undefined. */
  function ValueText(v: JsValue): string
    requires v != Undefined
  {
    match v
    case Null => "null"
    case Bool(b) => if b then "true" else "false"
    case Num(n) => Text.IntToString(n)
    case Str(s) => Quote(s)
  }

  /** The members JSON.stringify writes, in property order: undefined ones are skipped. */
  function Present(u: SessionUser): (ps: seq<(string, JsValue)>)
    ensures forall i :: 0 <= i < |ps| ==> ps[i].1 != Undefined
  {
    (if u.id != Undefined then [("id", u.id)] else [])
    + (if u.username != Undefined then [("username", u.username)] else [])
    + (if u.isAdmin != Undefined then [("isAdmin", u.isAdmin)] else [])
  }

  function MembersText(ps: seq<(string, JsValue)>): string
    requires ps != [] && forall i :: 0 <= i < |ps| ==> ps[i].1 != Undefined
  {
    var m := Quote(ps[0].0) + ":" + ValueText(ps[0].1);
    if |ps| == 1 then m else m + "," + MembersText(ps[1..])
  }

  /** JSON.stringify({id, username, isAdmin}). */
  function Stringify(u: SessionUser): string
  {
    var ps := Present(u);
    if ps == [] then "{}" else "{" + MembersText(ps) + "}"
  }

  // ------------------------------------------------------------------- parse

  predicate IsDigit(c: char)
  {
    '0' <= c <= '9'
  }

  predicate IsHex(c: char)
  {
    '0' <= c <= '9' || 'a' <= c <= 'f' || 'A' <= c <= 'F'
  }

  function HexValue(c: char): (d: int)
    requires IsHex(c)
    ensures 0 <= d < 16
  {
    if '0' <= c <= '9' then c as int - '0' as int
    else if 'a' <= c <= 'f' then c as int - 'a' as int + 10
    else c as int - 'A' as int + 10
  }

  lemma HexRoundTrip(d: int)
    requires 0 <= d < 16
    ensures IsHex(HexDigit(d)) && HexValue(HexDigit(d)) == d
  {
  }

  /** The character a one-letter escape stands for. */
  function SimpleEscape(e: char): Option<char>
  {
    if e == '"' then Some('"')
    else if e == '\\' then Some('\\')
    else if e == '/' then Some('/')
    else if e == 'b' then Some('\U{0008}')
    else if e == 'f' then Some('\U{000C}')
    else if e == 'n' then Some('\n')
    else if e == 'r' then Some('\r')
    else if e == 't' then Some('\t')
    else None
  }

  /** A `\uXXXX` escape: four hex digits naming a code point that is not a surrogate. */
  function UnicodeEscape(s: string): Option<char>
  {
    if |s| < 4 || !(IsHex(s[0]) && IsHex(s[1]) && IsHex(s[2]) && IsHex(s[3])) then None
    else
      var code := 4096 * HexValue(s[0]) + 256 * HexValue(s[1]) + 16 * HexValue(s[2]) + HexValue(s[3]);
      if 0xD800 <= code <= 0xDFFF then None else Some(code as char)
  }

  /**
   * The rest of a string literal after its opening quote: its characters and
   * the input after the closing quote. Raw control characters and unknown
   * escapes are syntax errors.
   */
  function ParseStringBody(s: string): (r: Option<(string, string)>)
    ensures r.Some? ==> |r.value.1| < |s|
    decreases |s|
  {
    if s == [] then None
    else if s[0] == '"' then Some(([], s[1..]))
    else if s[0] == '\\' then
      if |s| < 2 then None
      else if s[1] == 'u' then
        match UnicodeEscape(s[2..])
        case None => None
        case Some(c) =>
          match ParseStringBody(s[6..])
          case None => None
          case Some((t, rest)) => Some(([c] + t, rest))
      else
        match SimpleEscape(s[1])
        case None => None
        case Some(c) =>
          match ParseStringBody(s[2..])
          case None => None
          case Some((t, rest)) => Some(([c] + t, rest))
    else if s[0] < ' ' then None
    else
      match ParseStringBody(s[1..])
      case None => None
      case Some((t, rest)) => Some(([s[0]] + t, rest))
  }

  /** How many digits `s` starts with. */
  function DigitRun(s: string): (k: nat)
    ensures k <= |s| && forall i :: 0 <= i < k ==> IsDigit(s[i])
    ensures k < |s| ==> !IsDigit(s[k])
  {
    if s == [] || !IsDigit(s[0]) then 0 else 1 + DigitRun(s[1..])
  }

  /** An integer literal: an optional minus sign and at least one digit. */
  function ParseNumber(s: string): (r: Option<(int, string)>)
    ensures r.Some? ==> |r.value.1| < |s|
  {
    if s != [] && s[0] == '-' then
      var k := DigitRun(s[1..]);
      if k == 0 then None
      else
        var value: int := 0 - (Text.DigitsValue(s[1..][..k]) as int);
        Some((value, s[1..][k..]))
    else
      var k := DigitRun(s);
      if k == 0 then None else Some((Text.DigitsValue(s[..k]), s[k..]))
  }

  function ParseValue(s: string): (r: Option<(JsValue, string)>)
    ensures r.Some? ==> |r.value.1| < |s|
  {
    if s == [] then None
    else if s[0] == 'n' then
      if |s| >= 4 && s[..4] == "null" then Some((Null, s[4..])) else None
    else if s[0] == 't' then
      if |s| >= 4 && s[..4] == "true" then Some((Bool(true), s[4..])) else None
    else if s[0] == 'f' then
      if |s| >= 5 && s[..5] == "false" then Some((Bool(false), s[5..])) else None
    else if s[0] == '"' then
      match ParseStringBody(s[1..])
      case None => None
      case Some((t, rest)) => Some((Str(t), rest))
    else
      match ParseNumber(s)
      case None => None
      case Some((n, rest)) => Some((Num(n), rest))
  }

  /**
   * The members of an object after its opening brace, each added to `acc`
   * (a repeated key keeps its last value); the closing brace must end the
   * text.
   */
  function ParseMembers(s: string, acc: JsObject): Option<JsObject>
    decreases |s|
  {
    if s == [] || s[0] != '"' then None
    else
      match ParseStringBody(s[1..])
      case None => None
      case Some((key, r1)) =>
        if r1 == [] || r1[0] != ':' then None
        else
          match ParseValue(r1[1..])
          case None => None
          case Some((v, r2)) =>
            if r2 == [] then None
            else if r2[0] == ',' then ParseMembers(r2[1..], acc[key := v])
            else if r2[0] == '}' && r2[1..] == [] then Some(acc[key := v])
            else None
  }

  function ParseObject(s: string): Option<JsObject>
  {
    if s == "{}" then Some(map[])
    else if s != [] && s[0] == '{' then ParseMembers(s[1..], map[])
    else None
  }

  /** JSON.parse of the stored text, read as the session user; None where JSON.parse throws. */
  function Parse(s: string): Option<SessionUser>
  {
    match ParseObject(s)
    case None => None
    case Some(o) => Some(SessionUser(Get(o, "id"), Get(o, "username"), Get(o, "isAdmin")))
  }

  // -------------------------------------------------------------- round trip

  /** One escaped character is read back as itself. */
  lemma {:induction false} EscapeCharRoundTrip(c: char, t: string)
    requires ParseStringBody(t).Some?
    ensures ParseStringBody(EscapeChar(c) + t) == Some(([c] + ParseStringBody(t).value.0, ParseStringBody(t).value.1))
  {
    var s := EscapeChar(c) + t;
    if c == '"' || c == '\\' || c == '\U{0008}' || c == '\U{000C}' || c == '\n' || c == '\r' || c == '\t' {
      assert s[0] == '\\' && s[2..] == t;
    } else if c < ' ' {
      var hi, lo := c as int / 16, c as int % 16;
      HexRoundTrip(hi);
      HexRoundTrip(lo);
      assert s == "\\u00" + [HexDigit(hi), HexDigit(lo)] + t;
      assert s[2..][..4] == "00" + [HexDigit(hi), HexDigit(lo)];
      assert UnicodeEscape(s[2..]) == Some(c);
      assert s[6..] == t;
    } else {
      assert s[0] == c && s[1..] == t;
    }
  }

  /** An escaped string followed by its closing quote is read back as itself. */
  lemma {:induction false} StringRoundTrip(s: string, rest: string)
    ensures ParseStringBody(Escape(s) + "\"" + rest) == Some((s, rest))
    decreases |s|
  {
    if s == [] {
      assert Escape(s) + "\"" + rest == "\"" + rest;
    } else {
      var t := Escape(s[1..]) + "\"" + rest;
      StringRoundTrip(s[1..], rest);
      assert Escape(s) + "\"" + rest == EscapeChar(s[0]) + t;
      EscapeCharRoundTrip(s[0], t);
      assert [s[0]] + s[1..] == s;
    }
  }

  /** A run of digits followed by a non-digit is read in full. */
  lemma {:induction false} DigitRunOf(d: string, rest: string)
    requires forall i :: 0 <= i < |d| ==> IsDigit(d[i])
    requires rest == [] || !IsDigit(rest[0])
    ensures DigitRun(d + rest) == |d|
    decreases |d|
  {
    if d != [] {
      assert (d + rest)[1..] == d[1..] + rest;
      DigitRunOf(d[1..], rest);
    } else {
      assert d + rest == rest;
    }
  }

  lemma {:induction false} NatRoundTrip(n: nat, rest: string)
    requires rest == [] || !IsDigit(rest[0])
    ensures var s := Text.NatToString(n) + rest;
      DigitRun(s) == |Text.NatToString(n)| > 0
      && s[..DigitRun(s)] == Text.NatToString(n) && s[DigitRun(s)..] == rest
      && Text.DigitsValue(s[..DigitRun(s)]) == n
  {
    var d := Text.NatToString(n);
    DigitRunOf(d, rest);
    assert (d + rest)[..|d|] == d && (d + rest)[|d|..] == rest;
    Text.DigitsOfNat(n);
  }

  lemma {:induction false} NumberRoundTrip(n: int, rest: string)
    requires rest == [] || !IsDigit(rest[0])
    ensures ParseNumber(Text.IntToString(n) + rest) == Some((n, rest))
  {
    if n < 0 {
      var d := Text.NatToString(-n);
      var s := "-" + (d + rest);
      assert Text.IntToString(n) + rest == s;
      assert s[1..] == d + rest;
      NatRoundTrip(-n, rest);
    } else {
      var d := Text.NatToString(n);
      var s := d + rest;
      assert Text.IntToString(n) + rest == s;
      assert s[0] == d[0] && s[0] != '-';
      NatRoundTrip(n, rest);
    }
  }

  /** A value followed by a comma or a closing brace is read back as itself. */
  lemma {:induction false} ValueRoundTrip(v: JsValue, rest: string)
    requires v != Undefined && rest != [] && (rest[0] == ',' || rest[0] == '}')
    ensures ParseValue(ValueText(v) + rest) == Some((v, rest))
  {
    var s := ValueText(v) + rest;
    match v
    case Null =>
      assert s[0] == 'n' && s[..4] == "null" && s[4..] == rest;
    case Bool(b) =>
      if b {
        assert s[0] == 't' && s[..4] == "true" && s[4..] == rest;
      } else {
        assert s[0] == 'f' && s[..5] == "false" && s[5..] == rest;
      }
    case Num(n) =>
      var t := Text.IntToString(n);
      assert s[0] == t[0];
      assert t[0] == '-' || IsDigit(t[0]);
      NumberRoundTrip(n, rest);
    case Str(str) =>
      assert s == "\"" + (Escape(str) + "\"" + rest);
      assert s[1..] == Escape(str) + "\"" + rest;
      StringRoundTrip(str, rest);
  }

  /** The object JSON.parse builds from members read in order. */
  function AddAll(acc: JsObject, ps: seq<(string, JsValue)>): JsObject
    decreases |ps|
  {
    if ps == [] then acc else AddAll(acc[ps[0].0 := ps[0].1], ps[1..])
  }

  /** One member, `"key":value`, and the separator after it. */
  lemma {:induction false} MemberRoundTrip(k: string, v: JsValue, tail: string, acc: JsObject)
    requires v != Undefined && tail != [] && (tail[0] == ',' || tail[0] == '}')
    ensures ParseMembers(Quote(k) + ":" + ValueText(v) + tail, acc)
         == if tail[0] == ',' then ParseMembers(tail[1..], acc[k := v])
            else if tail[1..] == [] then Some(acc[k := v])
            else None
  {
    var afterKey := ":" + (ValueText(v) + tail);
    var s := Quote(k) + ":" + ValueText(v) + tail;
    SeqAssoc(Quote(k), ":", ValueText(v), tail);
    QuotedSplit(k, afterKey);
    StringRoundTrip(k, afterKey);
    assert ParseStringBody(s[1..]) == Some((k, afterKey));
    assert afterKey[0] == ':' && afterKey[1..] == ValueText(v) + tail;
    ValueRoundTrip(v, tail);
  }

  /** The text of a member list: its first member, then either the end or a comma and the rest. */
  lemma MembersTextSplit(ps: seq<(string, JsValue)>)
    requires ps != [] && forall i :: 0 <= i < |ps| ==> ps[i].1 != Undefined
    ensures |ps| == 1 ==> MembersText(ps) + "}" == Quote(ps[0].0) + ":" + ValueText(ps[0].1) + "}"
    ensures |ps| > 1 ==>
      MembersText(ps) + "}" == Quote(ps[0].0) + ":" + ValueText(ps[0].1) + ("," + (MembersText(ps[1..]) + "}"))
  {
    var m := Quote(ps[0].0) + ":" + ValueText(ps[0].1);
    if |ps| > 1 {
      var rest := MembersText(ps[1..]);
      assert MembersText(ps) == m + "," + rest;
      SeqAssoc(m, ",", rest, "}");
    }
  }

  /** A quoted key followed by more text: the quote, then the escaped key and its closing quote. */
  lemma QuotedSplit(k: string, x: string)
    ensures (Quote(k) + x)[0] == '"'
    ensures (Quote(k) + x)[1..] == Escape(k) + "\"" + x
  {
    assert Quote(k) + x == "\"" + (Escape(k) + "\"" + x);
  }

  lemma SeqAssoc(a: string, b: string, c: string, d: string)
    ensures a + b + c + d == a + (b + (c + d))
  {
  }

  lemma {:induction false} MembersRoundTrip(ps: seq<(string, JsValue)>, acc: JsObject)
    requires ps != [] && forall i :: 0 <= i < |ps| ==> ps[i].1 != Undefined
    ensures ParseMembers(MembersText(ps) + "}", acc) == Some(AddAll(acc, ps))
    decreases |ps|
  {
    var k, v := ps[0].0, ps[0].1;
    MembersTextSplit(ps);
    if |ps| == 1 {
      MemberRoundTrip(k, v, "}", acc);
      assert ps[1..] == [];
    } else {
      var tail := "," + (MembersText(ps[1..]) + "}");
      MemberRoundTrip(k, v, tail, acc);
      assert tail[1..] == MembersText(ps[1..]) + "}";
      MembersRoundTrip(ps[1..], acc[k := v]);
    }
  }

  lemma {:induction false} AddAllAppend(acc: JsObject, a: seq<(string, JsValue)>, b: seq<(string, JsValue)>)
    ensures AddAll(acc, a + b) == AddAll(AddAll(acc, a), b)
    decreases |a|
  {
    if a != [] {
      assert (a + b)[0] == a[0] && (a + b)[1..] == a[1..] + b;
      AddAllAppend(acc[a[0].0 := a[0].1], a[1..], b);
    } else {
      assert a + b == b;
    }
  }

  /** The object read back has exactly the members that were present. */
  lemma {:induction false} PresentRead(u: SessionUser)
    ensures var o := AddAll(map[], Present(u));
      Get(o, "id") == u.id && Get(o, "username") == u.username && Get(o, "isAdmin") == u.isAdmin
  {
    var a := if u.id != Undefined then [("id", u.id)] else [];
    var b := if u.username != Undefined then [("username", u.username)] else [];
    var c := if u.isAdmin != Undefined then [("isAdmin", u.isAdmin)] else [];
    assert Present(u) == a + b + c;
    AddAllAppend(map[], a + b, c);
    AddAllAppend(map[], a, b);
    var o1 := AddAll(map[], a);
    var o2 := AddAll(o1, b);
    assert o1 == if u.id != Undefined then map["id" := u.id] else map[];
    assert o2 == if u.username != Undefined then o1["username" := u.username] else o1;
    assert AddAll(o2, c) == if u.isAdmin != Undefined then o2["isAdmin" := u.isAdmin] else o2;
  }

  /** A non-empty member list in braces parses to the object of its members. */
  lemma ParseBracedMembers(ps: seq<(string, JsValue)>)
    requires ps != [] && forall i :: 0 <= i < |ps| ==> ps[i].1 != Undefined
    ensures ParseObject("{" + (MembersText(ps) + "}")) == Some(AddAll(map[], ps))
  {
    var body := MembersText(ps) + "}";
    var s := "{" + body;
    assert MembersText(ps)[0] == '"';
    assert s[1] == '"' && s != "{}";
    assert s[0] == '{' && s[1..] == body;
    MembersRoundTrip(ps, map[]);
  }

  /** What JSON.stringify wrote, JSON.parse reads back: the stored session user survives a reload. */
  lemma ParseStringify(u: SessionUser)
    ensures Parse(Stringify(u)) == Some(u)
  {
    var ps := Present(u);
    var o := AddAll(map[], ps);
    PresentRead(u);
    if ps == [] {
      assert Stringify(u) == "{}" && o == map[];
      assert ParseObject("{}") == Some(o);
    } else {
      assert Stringify(u) == "{" + (MembersText(ps) + "}");
      ParseBracedMembers(ps);
    }
    assert ParseObject(Stringify(u)) == Some(o);
  }

}
