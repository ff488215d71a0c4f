/**
 Text on the wire: UTF-8, percent-encoding (section 2.1 of RFC 3986), form queries and
 decimal numbers, each as a printer and a separately written reader.
 Models what src/wbcz/edo_lite.py takes from urllib.parse: quote, urlencode and parse_qs.
 */
module Percent {
  import opened Common

  type bytes = seq<byte>

  // ---------- UTF-8 ----------

  /** The UTF-8 form of one Unicode scalar value. */
  function EncodeChar(c: char): (b: bytes)
    ensures 1 <= |b| <= 4
  {
    var k := c as int;
    if k < 0x80 then [k as byte]
    else if k < 0x800 then [(0xC0 + k / 64) as byte, (0x80 + k % 64) as byte]
    else if k < 0x1_0000 then [(0xE0 + k / 4096) as byte, (0x80 + k / 64 % 64) as byte, (0x80 + k % 64) as byte]
    else [(0xF0 + k / 262144) as byte, (0x80 + k / 4096 % 64) as byte, (0x80 + k / 64 % 64) as byte,
          (0x80 + k % 64) as byte]
  }

  function Encode(s: string): bytes {
    if s == "" then [] else EncodeChar(s[0]) + Encode(s[1..])
  }

  predicate Continuation(b: byte) {
    0x80 <= b < 0xC0
  }

  const REPLACEMENT := '\U{FFFD}'

  predicate ScalarFrom(k: int, least: int) {
    least <= k < 0x11_0000 && !(0xD800 <= k < 0xE000)
  }

  /** One character off the front, and how many bytes it took; malformed bytes become the replacement character. */
  function DecodeChar(b: bytes): (r: (char, nat))
    requires b != []
    ensures 1 <= r.1 <= |b|
  {
    var b0 := b[0] as int;
    if b0 < 0x80 then (b0 as char, 1)
    else if 0xC0 <= b0 < 0xE0 && |b| >= 2 && Continuation(b[1]) then
      var k := (b0 - 0xC0) * 64 + (b[1] as int - 0x80);
      if ScalarFrom(k, 0x80) then (k as char, 2) else (REPLACEMENT, 1)
    else if 0xE0 <= b0 < 0xF0 && |b| >= 3 && Continuation(b[1]) && Continuation(b[2]) then
      var k := ((b0 - 0xE0) * 64 + (b[1] as int - 0x80)) * 64 + (b[2] as int - 0x80);
      if ScalarFrom(k, 0x800) then (k as char, 3) else (REPLACEMENT, 1)
    else if 0xF0 <= b0 < 0xF8 && |b| >= 4 && Continuation(b[1]) && Continuation(b[2]) && Continuation(b[3]) then
      var k := (((b0 - 0xF0) * 64 + (b[1] as int - 0x80)) * 64 + (b[2] as int - 0x80)) * 64 + (b[3] as int - 0x80);
      if ScalarFrom(k, 0x1_0000) then (k as char, 4) else (REPLACEMENT, 1)
    else (REPLACEMENT, 1)
  }

  function Decode(b: bytes): string
    decreases |b|
  {
    if b == [] then ""
    else
      var (c, n) := DecodeChar(b);
      [c] + Decode(b[n..])
  }

  lemma DecodeCharInverts(c: char, rest: bytes)
    ensures DecodeChar(EncodeChar(c) + rest) == (c, |EncodeChar(c)|)
  {
    var k := c as int;
    assert k / 64 == k / 4096 * 64 + k / 64 % 64;
    assert k / 4096 == k / 262144 * 64 + k / 4096 % 64;
    var b := EncodeChar(c) + rest;
    assert forall i :: 0 <= i < |EncodeChar(c)| ==> b[i] == EncodeChar(c)[i];
  }

  /** Section 3 of RFC 3629: the lead byte tells the length, six bits follow in each further byte. */
  lemma EncodedChar(c: char)
    ensures var k, b := c as int, EncodeChar(c);
            && |b| == (if k < 0x80 then 1 else if k < 0x800 then 2 else if k < 0x1_0000 then 3 else 4)
            && (forall i :: 1 <= i < |b| ==> Continuation(b[i]))
            && k == match |b|
                    case 1 => b[0] as int
                    case 2 => (b[0] as int - 0xC0) * 0x40 + b[1] as int - 0x80
                    case 3 => (b[0] as int - 0xE0) * 0x1000 + (b[1] as int - 0x80) * 0x40 + b[2] as int - 0x80
                    case _ => (b[0] as int - 0xF0) * 0x4_0000 + (b[1] as int - 0x80) * 0x1000
                              + (b[2] as int - 0x80) * 0x40 + b[3] as int - 0x80
  {
    var k := c as int;
    assert k / 64 == k / 4096 * 64 + k / 64 % 64;
    assert k / 4096 == k / 262144 * 64 + k / 4096 % 64;
  }

  lemma {:induction false} EncodedJoin(s: string, t: string)
    ensures Encode(s + t) == Encode(s) + Encode(t)
  {
    if s == "" {
      assert s + t == t;
    } else {
      EncodedJoin(s[1..], t);
      assert (s + t)[1..] == s[1..] + t && (s + t)[0] == s[0];
      assert EncodeChar(s[0]) + (Encode(s[1..]) + Encode(t)) == (EncodeChar(s[0]) + Encode(s[1..])) + Encode(t);
    }
  }

  lemma {:induction false} Utf8RoundTrip(s: string)
    ensures Decode(Encode(s)) == s
  {
    if s != "" {
      var rest := Encode(s[1..]);
      DecodeCharInverts(s[0], rest);
      assert (EncodeChar(s[0]) + rest)[|EncodeChar(s[0])|..] == rest;
      Utf8RoundTrip(s[1..]);
    }
  }

  // ---------- Percent-encoding ----------

  predicate Unreserved(b: byte) {
    0x41 <= b <= 0x5A || 0x61 <= b <= 0x7A || 0x30 <= b <= 0x39 || b in {0x5F, 0x2E, 0x2D, 0x7E}
  }

  function HexDigit(n: int): char
    requires 0 <= n < 16
  {
    if n < 10 then (0x30 + n) as char else (0x37 + n) as char
  }

  function HexValue(c: char): Option<int> {
    if '0' <= c <= '9' then Some(c as int - 0x30)
    else if 'A' <= c <= 'F' then Some(c as int - 0x37)
    else if 'a' <= c <= 'f' then Some(c as int - 0x57)
    else None
  }

  /** quote with nothing else safe; with plus, quote_plus. */
  function QuoteByte(b: byte, plus: bool): (s: string)
    ensures |s| >= 1
  {
    if Unreserved(b) then [b as int as char]
    else if plus && b == 0x20 then "+"
    else ['%', HexDigit(b as int / 16), HexDigit(b as int % 16)]
  }

  function QuoteBytes(b: bytes, plus: bool): string {
    if b == [] then "" else QuoteByte(b[0], plus) + QuoteBytes(b[1..], plus)
  }

  function Quote(s: string, plus: bool): string {
    QuoteBytes(Encode(s), plus)
  }

  const HEX := "0123456789ABCDEF"

  lemma {:induction false} QuotedBytesJoin(a: bytes, b: bytes, plus: bool)
    ensures QuoteBytes(a + b, plus) == QuoteBytes(a, plus) + QuoteBytes(b, plus)
  {
    if a == [] {
      assert a + b == b;
    } else {
      QuotedBytesJoin(a[1..], b, plus);
      assert (a + b)[1..] == a[1..] + b && (a + b)[0] == a[0];
      var first, rest := QuoteByte(a[0], plus), QuoteBytes(a[1..], plus);
      assert first + (rest + QuoteBytes(b, plus)) == (first + rest) + QuoteBytes(b, plus);
    }
  }

  /** Texts are quoted character by character. */
  lemma QuotedJoin(s: string, t: string, plus: bool)
    ensures Quote(s + t, plus) == Quote(s, plus) + Quote(t, plus)
  {
    EncodedJoin(s, t);
    QuotedBytesJoin(Encode(s), Encode(t), plus);
  }

  /** Letters, digits and _ . - ~ print as themselves; a byte of anything else as '%' and two upper-case digits. */
  lemma QuotedByte(b: byte, plus: bool)
    ensures var c := b as int as char;
            QuoteByte(b, plus) ==
              if 'A' <= c <= 'Z' || 'a' <= c <= 'z' || '0' <= c <= '9' || c == '_' || c == '.' || c == '-' || c == '~'
              then [c]
              else if plus && c == ' ' then "+"
              else ['%', HEX[b as int / 16], HEX[b as int % 16]]
  {
    HexOf(b as int / 16);
    HexOf(b as int % 16);
  }

  lemma HexOf(n: int)
    requires 0 <= n < 16
    ensures HexDigit(n) == HEX[n]
  {
  }

  /** unquote, after replacing '+' by a space when plus; a '%' without two hex digits stands for itself. */
  function UnquoteBytes(s: string, plus: bool): bytes
    decreases |s|
  {
    if s == "" then []
    else if s[0] == '%' && |s| >= 3 && HexValue(s[1]).Some? && HexValue(s[2]).Some? then
      [(HexValue(s[1]).value * 16 + HexValue(s[2]).value) as byte] + UnquoteBytes(s[3..], plus)
    else EncodeChar(if plus && s[0] == '+' then ' ' else s[0]) + UnquoteBytes(s[1..], plus)
  }

  function Unquote(s: string, plus: bool): string {
    Decode(UnquoteBytes(s, plus))
  }

  lemma UnquoteByte(b: byte, plus: bool, rest: string)
    ensures UnquoteBytes(QuoteByte(b, plus) + rest, plus) == [b] + UnquoteBytes(rest, plus)
  {
    var q := QuoteByte(b, plus);
    var s := q + rest;
    assert s[|q|..] == rest;
    if !Unreserved(b) && !(plus && b == 0x20) {
      assert s[1] == HexDigit(b as int / 16) && s[2] == HexDigit(b as int % 16);
      assert b as int == b as int / 16 * 16 + b as int % 16;
    }
  }

  lemma {:induction false} UnquoteBytesInverts(b: bytes, plus: bool)
    ensures UnquoteBytes(QuoteBytes(b, plus), plus) == b
  {
    if b != [] {
      UnquoteByte(b[0], plus, QuoteBytes(b[1..], plus));
      UnquoteBytesInverts(b[1..], plus);
    }
  }

  lemma QuoteRoundTrip(s: string, plus: bool)
    ensures Unquote(Quote(s, plus), plus) == s
  {
    UnquoteBytesInverts(Encode(s), plus);
    Utf8RoundTrip(s);
  }

  /** The only characters a quoted text is made of. */
  predicate WireChar(c: char) {
    'A' <= c <= 'Z' || 'a' <= c <= 'z' || '0' <= c <= '9' || c in "_.-~%+"
  }

  predicate AllWire(s: string) {
    forall i :: 0 <= i < |s| ==> WireChar(s[i])
  }

  lemma QuoteByteIsWire(b: byte, plus: bool)
    ensures AllWire(QuoteByte(b, plus))
  {
    assert "_.-~%+"[0] == '_' && "_.-~%+"[1] == '.' && "_.-~%+"[2] == '-' && "_.-~%+"[3] == '~' && "_.-~%+"[4] == '%'
           && "_.-~%+"[5] == '+';
  }

  lemma {:induction false} QuoteBytesIsWire(b: bytes, plus: bool)
    ensures AllWire(QuoteBytes(b, plus))
  {
    if b != [] {
      QuoteByteIsWire(b[0], plus);
      QuoteBytesIsWire(b[1..], plus);
    }
  }

  lemma QuoteIsWire(s: string, plus: bool)
    ensures AllWire(Quote(s, plus)) && (s != "" ==> Quote(s, plus) != "")
  {
    QuoteBytesIsWire(Encode(s), plus);
    if s != "" {
      assert Encode(s) != [];
    }
  }

  // ---------- Splitting ----------

  ghost predicate Free(s: string, c: char) {
    forall i :: 0 <= i < |s| ==> s[i] != c
  }

  lemma WireIsFree(s: string, c: char)
    requires AllWire(s) && !WireChar(c)
    ensures Free(s, c)
  {
  }

  /** s.partition(c): before the first c and after it; everything and None when c is absent. */
  function Partition(s: string, c: char): (string, Option<string>) {
    if s == "" then ("", None)
    else if s[0] == c then ("", Some(s[1..]))
    else
      var (head, tail) := Partition(s[1..], c);
      ([s[0]] + head, tail)
  }

  lemma {:induction false} PartitionAt(a: string, c: char, b: string)
    requires Free(a, c)
    ensures Partition(a + [c] + b, c) == (a, Some(b))
  {
    var s := a + [c] + b;
    if a == "" {
      assert s[1..] == b;
    } else {
      assert s[1..] == a[1..] + [c] + b && s[0] == a[0];
      assert Free(a[1..], c) && a == [a[0]] + a[1..];
      PartitionAt(a[1..], c, b);
    }
  }

  lemma {:induction false} PartitionNone(a: string, c: char)
    requires Free(a, c)
    ensures Partition(a, c) == (a, None)
  {
    if a != "" {
      assert Free(a[1..], c) && a == [a[0]] + a[1..];
      PartitionNone(a[1..], c);
    }
  }

  lemma {:induction false} PartitionShrinks(s: string, c: char)
    ensures Partition(s, c).1.Some? ==> |Partition(s, c).1.value| < |s|
  {
    if s != "" && s[0] != c {
      PartitionShrinks(s[1..], c);
    }
  }

  // ---------- Form queries ----------

  type Field = (string, string)

  function PrintField(field: Field): string {
    Quote(field.0, true) + "=" + Quote(field.1, true)
  }

  /** urlencode of a list of pairs. */
  function UrlEncode(fields: seq<Field>): string {
    if fields == [] then ""
    else if |fields| == 1 then PrintField(fields[0])
    else PrintField(fields[0]) + "&" + UrlEncode(fields[1..])
  }

  function ReadField(text: string): Field {
    var (name, value) := Partition(text, '=');
    (Unquote(name, true), if value.Some? then Unquote(value.value, true) else "")
  }

  /** parse_qs with keep_blank_values, as the list of fields in order; empty pieces are skipped. */
  function ReadQuery(query: string): seq<Field>
    decreases |query|
  {
    if query == "" then []
    else
      var (piece, rest) := Partition(query, '&');
      PartitionShrinks(query, '&');
      (if piece == "" then [] else [ReadField(piece)]) + (if rest.Some? then ReadQuery(rest.value) else [])
  }

  lemma FieldRoundTrip(field: Field)
    ensures ReadField(PrintField(field)) == field
    ensures PrintField(field) != "" && Free(PrintField(field), '&')
  {
    var name, value := Quote(field.0, true), Quote(field.1, true);
    QuoteIsWire(field.0, true);
    QuoteIsWire(field.1, true);
    WireIsFree(name, '=');
    WireIsFree(name, '&');
    WireIsFree(value, '&');
    assert PrintField(field) == name + ['='] + value;
    PartitionAt(name, '=', value);
    QuoteRoundTrip(field.0, true);
    QuoteRoundTrip(field.1, true);
  }

  lemma ReadLast(first: string)
    requires first != "" && Free(first, '&')
    ensures ReadQuery(first) == [ReadField(first)]
  {
    PartitionNone(first, '&');
  }

  lemma ReadNext(first: string, rest: string)
    requires first != "" && Free(first, '&')
    ensures ReadQuery(first + ['&'] + rest) == [ReadField(first)] + ReadQuery(rest)
  {
    PartitionAt(first, '&', rest);
  }

  /** The reader recovers every printed list of fields, blank values included. */
  lemma {:induction false} QueryRoundTrip(fields: seq<Field>)
    ensures ReadQuery(UrlEncode(fields)) == fields
  {
    hide PrintField, ReadField, ReadQuery;
    if fields == [] {
      ReadNothing();
    } else {
      var first := PrintField(fields[0]);
      FieldRoundTrip(fields[0]);
      if |fields| == 1 {
        ReadLast(first);
        assert fields == [fields[0]];
      } else {
        ReadNext(first, UrlEncode(fields[1..]));
        QueryRoundTrip(fields[1..]);
        assert fields == [fields[0]] + fields[1..];
      }
    }
  }

  lemma ReadNothing()
    ensures ReadQuery("") == []
  {
  }

  predicate QueryChar(c: char) {
    WireChar(c) || c == '=' || c == '&'
  }

  lemma {:induction false} UrlEncodeChars(fields: seq<Field>)
    ensures forall i :: 0 <= i < |UrlEncode(fields)| ==> QueryChar(UrlEncode(fields)[i])
  {
    if fields != [] {
      QuoteIsWire(fields[0].0, true);
      QuoteIsWire(fields[0].1, true);
      if |fields| > 1 {
        UrlEncodeChars(fields[1..]);
      }
    }
  }

  // ---------- Decimal numbers ----------

  /** str of a non-negative int. */
  function Decimal(n: nat): string {
    if n < 10 then [(0x30 + n) as char] else Decimal(n / 10) + [(0x30 + n % 10) as char]
  }

  lemma {:induction false} DecimalIsDigits(n: nat)
    ensures Decimal(n) != "" && forall i :: 0 <= i < |Decimal(n)| ==> '0' <= Decimal(n)[i] <= '9'
    ensures Decimal(n) == "0" || '1' <= Decimal(n)[0]
  {
    if n >= 10 {
      DecimalIsDigits(n / 10);
      assert Decimal(n)[0] == Decimal(n / 10)[0];
      if Decimal(n / 10) == "0" {
        DecimalOfZero(n / 10);
      }
    }
  }

  lemma {:induction false} DecimalOfZero(n: nat)
    requires Decimal(n) == "0"
    ensures n == 0
  {
    if n >= 10 {
      assert |Decimal(n / 10)| == 0;
      DecimalIsDigits(n / 10);
    } else {
      assert Decimal(n)[0] == '0';
    }
  }
}
