/**
 * The search URL: the base listing URL of the motor section, with each search
 * parameter appended to its `searchParams` in key order. The URL Standard
 * (WHATWG) serialises the parameter list with its
 * `application/x-www-form-urlencoded` serializer (section 5.2): every name and
 * value is UTF-8 encoded and percent-encoded, a space becomes '+', and the
 * `name=value` pairs are joined by '&'. The parser of section 5.1 is the
 * partner this model proves the serialisation against.
 */
module UrlBuilder {
  import opened JsText

  type Byte = b: int | 0 <= b < 256

  const BaseUrl: string := "https://www.milanuncios.com/motor/"

  /** The UTF-8 encoding of one Unicode scalar value. */
  function Utf8Char(c: char): (r: seq<Byte>)
    ensures 1 <= |r| <= 4
    ensures c as int < 0x80 <==> r == [c as int]
  {
    var n := c as int;
    if n < 0x80 then [n]
    else if n < 0x800 then [0xC0 + n / 64, 0x80 + n % 64]
    else if n < 0x10000 then [0xE0 + n / 4096, 0x80 + (n / 64) % 64, 0x80 + n % 64]
    else [0xF0 + n / 262144, 0x80 + (n / 4096) % 64, 0x80 + (n / 64) % 64, 0x80 + n % 64]
  }

  /** The UTF-8 encoding of a string. */
  function Utf8Encode(s: string): (r: seq<Byte>)
    ensures |s| <= |r| <= 4 * |s|
  {
    if s == [] then [] else Utf8Char(s[0]) + Utf8Encode(s[1..])
  }

  /** The bytes the `application/x-www-form-urlencoded` percent-encode set leaves alone. */
  predicate Unreserved(b: Byte) {
    b == 0x2A || b == 0x2D || b == 0x2E || 0x30 <= b <= 0x39 || 0x41 <= b <= 0x5A
    || b == 0x5F || 0x61 <= b <= 0x7A
  }

  /** An upper-case hexadecimal digit. */
  function HexDigit(d: nat): (c: char)
    requires d < 16
    ensures IsHexDigit(c) && HexValue(c) == d
  {
    if d < 10 then '0' + d as char else 'A' + (d - 10) as char
  }

  predicate IsHexDigit(c: char) {
    '0' <= c <= '9' || 'A' <= c <= 'F' || 'a' <= c <= 'f'
  }

  function HexValue(c: char): (d: nat)
    requires IsHexDigit(c)
    ensures d < 16
  {
    if '0' <= c <= '9' then c as int - '0' as int
    else if 'A' <= c <= 'F' then c as int - 'A' as int + 10
    else c as int - 'a' as int + 10
  }

  /** One byte, percent-encoded with space as plus. */
  function EncodeByte(b: Byte): (r: string)
    ensures 1 <= |r| <= 3
    ensures '&' !in r && '=' !in r
  {
    if b == 0x20 then "+"
    else if Unreserved(b) then [b as char]
    else ['%', HexDigit(b / 16), HexDigit(b % 16)]
  }

  /** A byte sequence, percent-encoded byte by byte. */
  function EncodeBytes(bs: seq<Byte>): (r: string)
    ensures '&' !in r && '=' !in r
    ensures |bs| <= |r| <= 3 * |bs|
  {
    if bs == [] then "" else EncodeByte(bs[0]) + EncodeBytes(bs[1..])
  }

  /** "Percent-encode after encoding" with UTF-8, the form percent-encode set and space as plus. */
  function FormEncode(s: string): string {
    EncodeBytes(Utf8Encode(s))
  }

  /** The `name=value` text of one parameter. */
  function PairText(p: (string, string)): string {
    FormEncode(p.0) + "=" + FormEncode(p.1)
  }

  /** Texts joined by '&'. */
  function JoinAmp(parts: seq<string>): string {
    if parts == [] then ""
    else if |parts| == 1 then parts[0]
    else parts[0] + "&" + JoinAmp(parts[1..])
  }

  function PairTexts(pairs: seq<(string, string)>): (r: seq<string>)
    ensures |r| == |pairs|
    ensures forall i | 0 <= i < |pairs| :: r[i] == PairText(pairs[i])
  {
    if pairs == [] then [] else [PairText(pairs[0])] + PairTexts(pairs[1..])
  }

  /** The `application/x-www-form-urlencoded` serializer. */
  function Serialize(pairs: seq<(string, string)>): string {
    JoinAmp(PairTexts(pairs))
  }

  /**
   * `buildUrl(params)`: `params` lists the parameters in `Object.keys` order.
   * Appending to `searchParams` runs the URL's update steps, which store the
   * serialised list as the URL's query; with nothing appended the query stays
   * null and the URL serialises without '?'.
   */
  method BuildUrl(params: seq<(string, string)>) returns (url: string)
    ensures url == if params == [] then BaseUrl else BaseUrl + "?" + Serialize(params)
    ensures StartsWith(url, BaseUrl)
    ensures params == [] <==> url == BaseUrl
    ensures params != [] ==> url[|BaseUrl|] == '?' && ParseQuery(url[|BaseUrl| + 1..]) == Utf8Pairs(params)
  {
    var list: seq<(string, string)> := [];
    var query: string := "";
    var hasQuery := false;
    for i := 0 to |params|
      invariant list == params[..i]
      invariant hasQuery <==> i > 0
      invariant hasQuery ==> query == Serialize(list)
    {
      TakeOneMore(params, i);
      list := list + [params[i]];
      query := Serialize(list);
      hasQuery := true;
    }
    assert list == params;
    url := if hasQuery then BaseUrl + "?" + query else BaseUrl;
    if params != [] {
      QueryUrl(query);
      ParseSerialized(params);
    } else {
      assert StartsWith(url, BaseUrl);
    }
  }

  /** A prefix one longer ends with the next element. */
  lemma TakeOneMore(params: seq<(string, string)>, i: nat)
    requires i < |params|
    ensures params[..i + 1] == params[..i] + [params[i]]
  {
  }

  /** The address with a query: the base, then '?', then the query itself. */
  lemma QueryUrl(query: string)
    ensures var url := BaseUrl + "?" + query;
      StartsWith(url, BaseUrl) && url != BaseUrl && url[|BaseUrl|] == '?' && url[|BaseUrl| + 1..] == query
  {
    var url := BaseUrl + "?" + query;
    assert url[..|BaseUrl|] == BaseUrl;
    assert |url| > |BaseUrl|;
  }

  // The section 5.1 parser, the partner of the serializer.

  /** `s.split('&')`. */
  function SplitAmp(s: string): (r: seq<string>)
    ensures |r| >= 1
    decreases |s|
  {
    var head := BeforeFirst(s, '&');
    if |head| == |s| then [s] else [head] + SplitAmp(s[|head| + 1..])
  }

  /** Percent-decoding, with '+' read as a space first. */
  function DecodeComponent(s: string): seq<Byte>
  {
    if s == [] then []
    else if s[0] == '+' then [0x20] + DecodeComponent(s[1..])
    else if s[0] == '%' && |s| >= 3 && IsHexDigit(s[1]) && IsHexDigit(s[2]) then
      [HexValue(s[1]) * 16 + HexValue(s[2])] + DecodeComponent(s[3..])
    else Utf8Char(s[0]) + DecodeComponent(s[1..])
  }

  /** One `&`-separated sequence: name before the first '=', value after it. */
  function ParsePair(piece: string): (seq<Byte>, seq<Byte>) {
    var name := BeforeFirst(piece, '=');
    if |name| == |piece| then (DecodeComponent(piece), [])
    else (DecodeComponent(name), DecodeComponent(piece[|name| + 1..]))
  }

  /** The `application/x-www-form-urlencoded` parser: empty sequences are skipped. */
  function ParseQuery(q: string): seq<(seq<Byte>, seq<Byte>)> {
    ParsePieces(SplitAmp(q))
  }

  function ParsePieces(pieces: seq<string>): seq<(seq<Byte>, seq<Byte>)> {
    if pieces == [] then []
    else if pieces[0] == "" then ParsePieces(pieces[1..])
    else [ParsePair(pieces[0])] + ParsePieces(pieces[1..])
  }

  /** What the parser must give back: each name and value as UTF-8 bytes. */
  function Utf8Pairs(pairs: seq<(string, string)>): (r: seq<(seq<Byte>, seq<Byte>)>)
    ensures |r| == |pairs|
  {
    if pairs == [] then [] else [(Utf8Encode(pairs[0].0), Utf8Encode(pairs[0].1))] + Utf8Pairs(pairs[1..])
  }

  /** Decoding undoes the encoding of one byte, whatever follows it. */
  lemma DecodeEncodedByte(b: Byte, rest: string)
    ensures DecodeComponent(EncodeByte(b) + rest) == [b] + DecodeComponent(rest)
  {
    var s := EncodeByte(b) + rest;
    if b == 0x20 {
      assert s[1..] == rest;
    } else if Unreserved(b) {
      assert s[0] == b as char && s[1..] == rest;
    } else {
      assert s[3..] == rest;
      assert HexValue(s[1]) * 16 + HexValue(s[2]) == b;
    }
  }

  /** Percent-decoding is the inverse of percent-encoding. */
  lemma {:induction false} DecodeEncoded(bs: seq<Byte>)
    ensures DecodeComponent(EncodeBytes(bs)) == bs
  {
    if bs != [] {
      DecodeEncodedByte(bs[0], EncodeBytes(bs[1..]));
      DecodeEncoded(bs[1..]);
    }
  }

  /** Splitting on '&' undoes joining texts that have no '&'. */
  lemma {:induction false} SplitJoin(parts: seq<string>)
    requires parts != []
    requires forall i | 0 <= i < |parts| :: '&' !in parts[i]
    ensures SplitAmp(JoinAmp(parts)) == parts
  {
    var s := JoinAmp(parts);
    if |parts| == 1 {
      assert BeforeFirst(s, '&') == s;
    } else {
      var p := parts[0];
      var rest := JoinAmp(parts[1..]);
      assert s == p + ("&" + rest);
      BeforeFirstAt(p, "&" + rest, '&');
      assert s[|p| + 1..] == rest;
      assert '&' !in p by { assert p == parts[0]; }
      assert BeforeFirst(s, '&') == p && |p| < |s|;
      SplitJoin(parts[1..]);
      assert SplitAmp(s) == [p] + SplitAmp(rest);
      assert parts == [p] + parts[1..];
    }
  }

  /** `split(c)[0]` of a text with no `c` in its first part. */
  lemma {:induction false} BeforeFirstAt(a: string, b: string, c: char)
    requires c !in a && b != [] && b[0] == c
    ensures BeforeFirst(a + b, c) == a
  {
    if a == [] {
      assert a + b == b;
    } else {
      assert (a + b)[1..] == a[1..] + b;
      BeforeFirstAt(a[1..], b, c);
    }
  }

  /** The parser reads one serialised pair back as its UTF-8 name and value. */
  lemma ParsePairText(p: (string, string))
    ensures PairText(p) != ""
    ensures ParsePair(PairText(p)) == (Utf8Encode(p.0), Utf8Encode(p.1))
  {
    ParsePairOf(FormEncode(p.0), FormEncode(p.1));
    DecodeEncoded(Utf8Encode(p.0));
    DecodeEncoded(Utf8Encode(p.1));
  }

  /** A name without '=' is split from its value at the first '='. */
  lemma ParsePairOf(n: string, v: string)
    requires '=' !in n
    ensures ParsePair(n + "=" + v) == (DecodeComponent(n), DecodeComponent(v))
  {
    var piece := n + "=" + v;
    BeforeFirstAt(n, "=" + v, '=');
    assert piece == n + ("=" + v);
    assert piece[|n| + 1..] == v;
  }

  /** Parsing what the serializer wrote gives back every parameter, in order. */
  lemma {:induction false} ParseSerialized(pairs: seq<(string, string)>)
    ensures ParseQuery(Serialize(pairs)) == Utf8Pairs(pairs)
  {
    if pairs == [] {
      assert SplitAmp("") == [""];
    } else {
      var texts := PairTexts(pairs);
      SplitJoin(texts);
      ParsePiecesOfTexts(pairs);
    }
  }

  lemma {:induction false} ParsePiecesOfTexts(pairs: seq<(string, string)>)
    ensures ParsePieces(PairTexts(pairs)) == Utf8Pairs(pairs)
  {
    if pairs != [] {
      ParsePairText(pairs[0]);
      assert PairTexts(pairs)[1..] == PairTexts(pairs[1..]);
      ParsePiecesOfTexts(pairs[1..]);
    }
  }

  /** A space is written as '+', and '+' itself is percent-encoded. */
  lemma SpaceAsPlus()
    ensures FormEncode(" ") == "+"
    ensures FormEncode("+") == "%2B"
    ensures FormEncode("a b") == "a+b"
  {
    assert Utf8Encode(" ") == [0x20];
    assert Utf8Encode("+") == [0x2B];
    assert Utf8Encode("a b") == [0x61, 0x20, 0x62];
  }
}
