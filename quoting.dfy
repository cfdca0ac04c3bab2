/** `urllib.parse.quote(text, safe="")`: percent-encoding (section 2.1 of
    RFC 3986) of the UTF-8 bytes of the text, leaving only the unreserved
    characters of section 2.3 of RFC 3986 as they are. */
module Quoting {

  import opened Wrappers
  import Utf8

  /** The unreserved set: ALPHA / DIGIT / "-" / "." / "_" / "~". */
  predicate IsUnreserved(c: char) {
    ('A' <= c <= 'Z') || ('a' <= c <= 'z') || ('0' <= c <= '9')
    || c == '-' || c == '.' || c == '_' || c == '~'
  }

  /** Upper-case hexadecimal digit, as Python writes it. */
  function HexDigit(n: int): (c: char)
    requires 0 <= n < 16
  {
    if n < 10 then ('0' as int + n) as char else ('A' as int + n - 10) as char
  }

  function HexValue(c: char): Option<int> {
    if '0' <= c <= '9' then Some(c as int - '0' as int)
    else if 'A' <= c <= 'F' then Some(c as int - 'A' as int + 10)
    else None
  }

  /** The text one byte becomes. */
  function EncodeByte(b: Utf8.byte): (t: string)
    ensures t == [b as char] || (|t| == 3 && t[0] == '%')
  {
    if IsUnreserved(b as char) then [b as char] else ['%', HexDigit(b / 16), HexDigit(b % 16)]
  }

  function PercentEncode(bs: seq<Utf8.byte>): string {
    if bs == [] then [] else EncodeByte(bs[0]) + PercentEncode(bs[1..])
  }

  /** `quote(s, safe="")` */
  function Quote(s: string): string {
    PercentEncode(Utf8.Encode(s))
  }

  /** Percent-decoding of text made of unreserved characters and escapes. */
  function PercentDecode(t: string): Option<seq<Utf8.byte>>
    decreases |t|
  {
    if t == [] then Some([])
    else if t[0] == '%' then
      if |t| >= 3 && HexValue(t[1]).Some? && HexValue(t[2]).Some? then
        match PercentDecode(t[3..])
        case None => None
        case Some(rest) => Some([HexValue(t[1]).value * 16 + HexValue(t[2]).value] + rest)
      else None
    else if IsUnreserved(t[0]) then
      match PercentDecode(t[1..])
      case None => None
      case Some(rest) => Some([t[0] as int] + rest)
    else None
  }

  /** `unquote`: the inverse of Quote. */
  function Unquote(t: string): Option<string> {
    match PercentDecode(t)
    case None => None
    case Some(bs) => Utf8.Decode(bs)
  }

  /** What Quote writes: only unreserved characters, '%' and upper-case
      hexadecimal digits, hence never a '/'. */
  predicate IsQuoted(t: string) {
    forall i :: 0 <= i < |t| ==> IsUnreserved(t[i]) || t[i] == '%'
  }

  lemma {:induction false} PercentEncodeShape(bs: seq<Utf8.byte>)
    ensures IsQuoted(PercentEncode(bs))
  {
    if bs != [] {
      PercentEncodeShape(bs[1..]);
      var h := EncodeByte(bs[0]);
      var t := PercentEncode(bs);
      assert t == h + PercentEncode(bs[1..]);
      forall i | 0 <= i < |h| ensures IsUnreserved(h[i]) || h[i] == '%' {
        var b := bs[0];
        if !IsUnreserved(b as char) {
          assert h == ['%', HexDigit(b / 16), HexDigit(b % 16)];
        }
      }
    }
  }

  /** The encoded text never holds a path separator. */
  lemma QuoteHasNoSlash(s: string)
    ensures IsQuoted(Quote(s))
    ensures '/' !in Quote(s)
  {
    PercentEncodeShape(Utf8.Encode(s));
  }

  lemma EncodeByteDecodes(b: Utf8.byte, t: string)
    ensures PercentDecode(EncodeByte(b) + t) ==
            match PercentDecode(t) case None => None case Some(rest) => Some([b] + rest)
  {
    var u := EncodeByte(b) + t;
    if IsUnreserved(b as char) {
      assert u[1..] == t;
    } else {
      assert u[3..] == t;
      assert HexValue(HexDigit(b / 16)) == Some(b / 16);
      assert HexValue(HexDigit(b % 16)) == Some(b % 16);
    }
  }

  lemma {:induction false} PercentRoundTrip(bs: seq<Utf8.byte>)
    ensures PercentDecode(PercentEncode(bs)) == Some(bs)
  {
    if bs != [] {
      PercentRoundTrip(bs[1..]);
      EncodeByteDecodes(bs[0], PercentEncode(bs[1..]));
      assert [bs[0]] + bs[1..] == bs;
    }
  }

  /** Unquote(Quote(s)) == s: quoting loses nothing. */
  lemma QuoteRoundTrip(s: string)
    ensures Unquote(Quote(s)) == Some(s)
  {
    PercentRoundTrip(Utf8.Encode(s));
    Utf8.DecodeEncode(s);
  }

  /** Distinct texts are quoted differently: identifiers built by quoting
      keep distinct inputs apart. */
  lemma QuoteInjective(s: string, t: string)
    requires Quote(s) == Quote(t)
    ensures s == t
  {
    QuoteRoundTrip(s);
    QuoteRoundTrip(t);
  }

  lemma {:induction false} QuoteIdentityOnUnreserved(s: string)
    requires forall i :: 0 <= i < |s| ==> IsUnreserved(s[i])
    ensures Quote(s) == s
  {
    if s != [] {
      QuoteIdentityOnUnreserved(s[1..]);
      assert Utf8.Encode(s) == Utf8.EncodeChar(s[0]) + Utf8.Encode(s[1..]);
      assert Utf8.EncodeChar(s[0]) == [s[0] as int];
      assert Utf8.Encode(s)[1..] == Utf8.Encode(s[1..]);
      assert [s[0]] + s[1..] == s;
    }
  }
}
