/**
 The path parameter of a compiled filter: `strict $` and one quoted key per part (eligibility.py), quoted
 as json.dumps quotes ASCII-only (section 7 of RFC 8259), and read back as PostgreSQL reads a jsonpath.
 */
module JsonPath {
  import opened Options
  import opened Json

  // ---- quoting ----

  function HexDigit(d: nat): char
    requires d < 16
  {
    if d < 10 then ('0' as int + d) as char else ('a' as int + d - 10) as char
  }

  /** Four lower-case hexadecimal digits. */
  function Hex4(n: nat): (s: string)
    requires n < 0x10000
    ensures |s| == 4
  {
    [HexDigit(n / 0x1000), HexDigit(n / 0x100 % 16), HexDigit(n / 16 % 16), HexDigit(n % 16)]
  }

  /** Two-character escapes where JSON has one, \u escapes for other controls and for everything past ASCII. */
  function QuoteChar(c: CodePoint): string {
    var n := c as int;
    if n == 34 then "\\\""
    else if n == 92 then "\\\\"
    else if n == 10 then "\\n"
    else if n == 13 then "\\r"
    else if n == 9 then "\\t"
    else if n == 8 then "\\b"
    else if n == 12 then "\\f"
    else if 0x20 <= n < 0x7f then [n as char]
    else if n < 0x10000 then "\\u" + Hex4(n)
    else "\\u" + Hex4(0xd800 + (n - 0x10000) / 0x400) + "\\u" + Hex4(0xdc00 + (n - 0x10000) % 0x400)
  }

  function QuoteBody(text: Text): string {
    if text == [] then "" else QuoteChar(text[0]) + QuoteBody(text[1..])
  }

  function Quote(text: Text): string {
    "\"" + QuoteBody(text) + "\""
  }

  function Keys(parts: seq<Text>): string {
    if parts == [] then "" else "." + Quote(parts[0]) + Keys(parts[1..])
  }

  const PREFIX := "strict $"

  function PathText(parts: seq<Text>): string {
    PREFIX + Keys(parts)
  }

  // ---- reading ----

  function HexValue(c: char): Option<nat> {
    if '0' <= c <= '9' then Some(c as int - '0' as int)
    else if 'a' <= c <= 'f' then Some(c as int - 'a' as int + 10)
    else if 'A' <= c <= 'F' then Some(c as int - 'A' as int + 10)
    else None
  }

  /** \uXXXX at the start of `s`: the code unit. */
  function Unit(s: string): (r: Option<nat>)
    ensures r.Some? ==> r.value < 0x10000 && |s| >= 6
  {
    if |s| < 6 || s[0] != '\\' || s[1] != 'u' then None
    else
      var a, b, c, d := HexValue(s[2]), HexValue(s[3]), HexValue(s[4]), HexValue(s[5]);
      if a.None? || b.None? || c.None? || d.None? then None
      else Some(a.value * 0x1000 + b.value * 0x100 + c.value * 16 + d.value)
  }

  datatype Scanned = Char(c: CodePoint, rest: string) | End(rest: string) | Malformed

  function Simple(c: char): CodePoint {
    match c
    case 'b' => 8
    case 'f' => 12
    case 'n' => 10
    case 'r' => 13
    case 't' => 9
    case 'v' => 11
    case _ => c as int as CodePoint
  }

  /** One character of a quoted key. A \u escape for NUL, and a surrogate without its partner, are errors. */
  function Scan(s: string): (r: Scanned)
    ensures !r.Malformed? ==> |r.rest| < |s|
  {
    if s == "" then Malformed
    else if s[0] == '"' then End(s[1..])
    else if s[0] != '\\' then Char(s[0] as int as CodePoint, s[1..])
    else if |s| < 2 then Malformed
    else if s[1] != 'u' then Char(Simple(s[1]), s[2..])
    else
      var unit := Unit(s);
      if unit.None? || unit.value == 0 then Malformed
      else if 0xdc00 <= unit.value < 0xe000 then Malformed
      else if 0xd800 <= unit.value < 0xdc00 then
        var low := Unit(s[6..]);
        if low.None? || !(0xdc00 <= low.value < 0xe000) then Malformed
        else Char((0x10000 + (unit.value - 0xd800) * 0x400 + (low.value - 0xdc00)) as CodePoint, s[12..])
      else Char(unit.value as CodePoint, s[6..])
  }

  function ReadKey(s: string): (r: Option<(Text, string)>)
    ensures r.Some? ==> |r.value.1| < |s|
    decreases |s|
  {
    match Scan(s)
    case Malformed => None
    case End(rest) => Some(([], rest))
    case Char(c, rest) =>
      var more := ReadKey(rest);
      if more.None? then None else Some(([c] + more.value.0, more.value.1))
  }

  function ReadKeys(s: string): Option<seq<Text>>
    decreases |s|
  {
    if s == "" then Some([])
    else if |s| < 2 || s[0] != '.' || s[1] != '"' then None
    else
      var key := ReadKey(s[2..]);
      if key.None? then None
      else
        var more := ReadKeys(key.value.1);
        if more.None? then None else Some([key.value.0] + more.value)
  }

  /** The keys a strict path of quoted member accessors names, or none if it is not one. */
  function ReadPath(s: string): Option<seq<Text>> {
    if |s| < |PREFIX| || s[..|PREFIX|] != PREFIX then None else ReadKeys(s[|PREFIX|..])
  }

  // ---- round trip ----

  lemma DigitRoundTrip(d: nat)
    requires d < 16
    ensures HexValue(HexDigit(d)) == Some(d)
  {
  }

  lemma Nibbles(n: nat)
    requires n < 0x10000
    ensures n == n / 0x1000 * 0x1000 + n / 0x100 % 16 * 0x100 + n / 16 % 16 * 16 + n % 16
  {
    assert n / 0x100 == n / 0x1000 * 16 + n / 0x100 % 16 && n / 16 == n / 0x100 * 16 + n / 16 % 16;
  }

  lemma HexRoundTrip(n: nat, s: string, rest: string)
    requires n < 0x10000 && s == "\\u" + Hex4(n) + rest
    ensures Unit(s) == Some(n) && s[6..] == rest && |s| >= 6 && s[0] == '\\' && s[1] == 'u'
  {
    DigitRoundTrip(n / 0x1000);
    DigitRoundTrip(n / 0x100 % 16);
    DigitRoundTrip(n / 16 % 16);
    DigitRoundTrip(n % 16);
    Nibbles(n);
    hide HexDigit, HexValue;
    assert s[2..6] == Hex4(n);
    assert s[2] == s[2..6][0] && s[3] == s[2..6][1] && s[4] == s[2..6][2] && s[5] == s[2..6][3];
  }

  predicate Escaped(c: CodePoint) {
    (c < 0x20 && c !in {8, 9, 10, 12, 13}) || c >= 0x7f
  }

  /** What follows does not complete a pair of surrogates. */
  predicate NoLow(rest: string) {
    Unit(rest).None? || !(0xdc00 <= Unit(rest).value < 0xe000)
  }

  lemma ScanUnit(c: CodePoint, rest: string)
    requires Escaped(c) && c < 0x10000 && (High(c) ==> NoLow(rest))
    ensures Scan(QuoteChar(c) + rest) == if Holdable(c) then Char(c, rest) else Malformed
    ensures Unit(QuoteChar(c) + rest) == Some(c as int)
  {
    HexRoundTrip(c as int, QuoteChar(c) + rest, rest);
    hide Unit, Hex4, Simple;
  }

  lemma ScanPair(c: CodePoint, rest: string)
    requires c >= 0x10000
    ensures Scan(QuoteChar(c) + rest) == Char(c, rest) && NoLow(QuoteChar(c) + rest)
  {
    var n := c as int - 0x10000;
    var high, low := 0xd800 + n / 0x400, 0xdc00 + n % 0x400;
    var s, tail := QuoteChar(c) + rest, "\\u" + Hex4(low) + rest;
    hide Unit, Hex4, Simple;
    assert s == "\\u" + Hex4(high) + tail;
    HexRoundTrip(high, s, tail);
    HexRoundTrip(low, tail, rest);
    assert s[12..] == s[6..][6..];
  }

  lemma ScanPlain(c: CodePoint, rest: string)
    requires !Escaped(c)
    ensures Scan(QuoteChar(c) + rest) == Char(c, rest) && NoLow(QuoteChar(c) + rest)
  {
    assert QuoteChar(c)[0] == (QuoteChar(c) + rest)[0];
    hide Hex4;
  }

  lemma ScanQuoted(c: CodePoint, rest: string)
    requires High(c) ==> NoLow(rest)
    ensures Scan(QuoteChar(c) + rest) == if Holdable(c) then Char(c, rest) else Malformed
    ensures !Low(c) ==> NoLow(QuoteChar(c) + rest)
  {
    hide Unit, QuoteChar, Scan;
    if !Escaped(c) {
      ScanPlain(c, rest);
    } else if c < 0x10000 {
      ScanUnit(c, rest);
    } else {
      ScanPair(c, rest);
    }
  }

  lemma NothingLow(rest: string)
    ensures NoLow("\"" + rest)
  {
  }

  lemma {:induction false} ReadQuoted(text: Text, rest: string)
    requires Decoded(text)
    ensures ReadKey(QuoteBody(text) + "\"" + rest) == if Storable(text) then Some((text, rest)) else None
    ensures text == [] || !Low(text[0]) ==> NoLow(QuoteBody(text) + "\"" + rest)
  {
    hide QuoteChar, Unit, Simple, NoLow;
    if text == [] {
      assert QuoteBody(text) + "\"" + rest == "\"" + rest;
      NothingLow(rest);
    } else {
      var tail := QuoteBody(text[1..]) + "\"" + rest;
      assert QuoteBody(text) + "\"" + rest == QuoteChar(text[0]) + tail;
      assert text == [text[0]] + text[1..];
      assert Decoded(text[1..]) by {
        assert forall i | 0 < i < |text[1..]| :: text[1..][i - 1] == text[i] && text[1..][i] == text[i + 1];
      }
      ReadQuoted(text[1..], rest);
      assert High(text[0]) && |text| > 1 ==> !Low(text[1]);
      ScanQuoted(text[0], tail);
      hide Scan, High, Low, Holdable;
      assert Storable(text) <==> Holdable(text[0]) && Storable(text[1..]) by { StorableStep(text); }
    }
  }

  lemma StorableStep(text: Text)
    requires text != []
    ensures Storable(text) <==> Holdable(text[0]) && Storable(text[1..])
  {
    assert forall i | 0 < i < |text| :: text[1..][i - 1] == text[i];
  }

  lemma {:induction false} ReadQuotedKeys(parts: seq<Text>)
    requires forall part :: part in parts ==> Decoded(part)
    ensures ReadKeys(Keys(parts)) == if forall part :: part in parts ==> Storable(part) then Some(parts) else None
  {
    hide ReadKey, QuoteBody, Storable, Decoded;
    if parts != [] {
      var s := Keys(parts);
      assert s == "." + "\"" + (QuoteBody(parts[0]) + "\"" + Keys(parts[1..]));
      assert s[2..] == QuoteBody(parts[0]) + "\"" + Keys(parts[1..]);
      ReadQuoted(parts[0], Keys(parts[1..]));
      assert parts == [parts[0]] + parts[1..];
      ReadQuotedKeys(parts[1..]);
    }
  }

  /** What is sent as the path names exactly the parts of the field, whatever characters they hold; a NUL or an unpaired
      surrogate alone makes it an error. */
  lemma PathRoundTrip(parts: seq<Text>)
    requires forall part :: part in parts ==> Decoded(part)
    ensures ReadPath(PathText(parts)) == if forall part :: part in parts ==> Storable(part) then Some(parts) else None
  {
    assert PathText(parts)[|PREFIX|..] == Keys(parts);
    ReadQuotedKeys(parts);
  }
}
