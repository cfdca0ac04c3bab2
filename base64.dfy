/** The URL- and filename-safe base64 alphabet of section 5 of RFC 4648:
    `base64.urlsafe_b64encode`, the padding it adds, and a decoder that
    undoes the unpadded form. */
module Base64 {

  import opened Wrappers
  import opened Strings
  import Utf8

  type byte = Utf8.byte

  /** A six-bit value. */
  type sextet = x: int | 0 <= x < 64

  /** The letter of a six-bit value: A-Z, a-z, 0-9, then '-' and '_'. */
  function Letter(v: sextet): (c: char)
    ensures c != '='
  {
    if v < 26 then ('A' as int + v) as char
    else if v < 52 then ('a' as int + (v - 26)) as char
    else if v < 62 then ('0' as int + (v - 52)) as char
    else if v == 62 then '-'
    else '_'
  }

  /** A letter of the alphabet. */
  predicate IsLetter(c: char) {
    'A' <= c <= 'Z' || 'a' <= c <= 'z' || '0' <= c <= '9' || c == '-' || c == '_'
  }

  /** The value a letter stands for. */
  function ValueOf(c: char): (r: Option<sextet>)
    ensures r.Some? <==> IsLetter(c)
  {
    if 'A' <= c <= 'Z' then Some(c as int - 'A' as int)
    else if 'a' <= c <= 'z' then Some(c as int - 'a' as int + 26)
    else if '0' <= c <= '9' then Some(c as int - '0' as int + 52)
    else if c == '-' then Some(62)
    else if c == '_' then Some(63)
    else None
  }

  /** Every value has its own letter, and the letter reads back as it. */
  lemma LetterValue(v: sextet)
    ensures IsLetter(Letter(v)) && ValueOf(Letter(v)) == Some(v)
  {
  }

  /** Three bytes as four letters. */
  function Quad(b0: byte, b1: byte, b2: byte): string {
    [Letter(b0 / 4), Letter((b0 % 4) * 16 + b1 / 16), Letter((b1 % 16) * 4 + b2 / 64), Letter(b2 % 64)]
  }

  /** `urlsafe_b64encode`: every three bytes become four letters; a final
      one or two bytes become two or three letters and "==" or "=". */
  function PaddedEncode(bs: seq<byte>): (r: string)
    decreases |bs|
  {
    if |bs| >= 3 then Quad(bs[0], bs[1], bs[2]) + PaddedEncode(bs[3..])
    else if |bs| == 2 then Quad(bs[0], bs[1], 0)[..3] + "="
    else if |bs| == 1 then Quad(bs[0], 0, 0)[..2] + "=="
    else []
  }

  /** The encoding without its padding. */
  function Encode(bs: seq<byte>): (r: string)
    decreases |bs|
  {
    if |bs| >= 3 then Quad(bs[0], bs[1], bs[2]) + Encode(bs[3..])
    else if |bs| == 2 then Quad(bs[0], bs[1], 0)[..3]
    else if |bs| == 1 then Quad(bs[0], 0, 0)[..2]
    else []
  }

  /** Stripping the '=' padding from the padded encoding leaves the unpadded
      one: the padding is the only '=' there is. */
  lemma {:induction false} StripPadding(bs: seq<byte>)
    ensures RStripChar(PaddedEncode(bs), '=') == Encode(bs)
    decreases |bs|
  {
    if |bs| >= 3 {
      StripPadding(bs[3..]);
      var q := Quad(bs[0], bs[1], bs[2]);
      RStripAfter(q, PaddedEncode(bs[3..]), Encode(bs[3..]));
    } else if |bs| == 2 {
      var e := Quad(bs[0], bs[1], 0)[..3];
      assert e + "=" == e + ['='];
      RStripOne(e);
    } else if |bs| == 1 {
      var e := Quad(bs[0], 0, 0)[..2];
      assert e + "==" == e + ['='] + ['='];
      RStripOne(e + ['=']);
      RStripOne(e);
    }
  }

  lemma RStripOne(s: string)
    ensures RStripChar(s + ['='], '=') == RStripChar(s, '=')
  {
    assert (s + ['='])[..|s|] == s;
  }

  /** Stripping a tail that strips to something non-empty keeps the head. */
  lemma {:induction false} RStripAfter(q: string, s: string, t: string)
    requires q != [] && q[|q| - 1] != '='
    requires RStripChar(s, '=') == t
    ensures RStripChar(q + s, '=') == q + t
    decreases |s|
  {
    if s == [] {
      assert q + s == q;
      assert RStripChar(q, '=') == q;
    } else if s[|s| - 1] == '=' {
      assert (q + s)[..|q + s| - 1] == q + s[..|s| - 1];
      RStripAfter(q, s[..|s| - 1], t);
    } else {
      assert RStripChar(s, '=') == s;
    }
  }

  /** The unpadded encoding holds letters of the alphabet only, so no '=';
      it is four letters for every three bytes and two or three for a final
      one or two. */
  lemma {:induction false} EncodeAlphabet(bs: seq<byte>)
    ensures forall i :: 0 <= i < |Encode(bs)| ==> IsLetter(Encode(bs)[i])
    ensures |Encode(bs)| == (4 * |bs| + 2) / 3
    decreases |bs|
  {
    if |bs| >= 3 {
      EncodeAlphabet(bs[3..]);
      var q := Quad(bs[0], bs[1], bs[2]);
      QuadLetters(bs[0], bs[1], bs[2]);
      var r := Encode(bs);
      assert r == q + Encode(bs[3..]);
      forall i | 0 <= i < |r| ensures IsLetter(r[i]) {
        if i >= 4 {
          assert r[i] == Encode(bs[3..])[i - 4];
        }
      }
    } else if |bs| == 2 {
      QuadLetters(bs[0], bs[1], 0);
    } else if |bs| == 1 {
      QuadLetters(bs[0], 0, 0);
    }
  }

  lemma QuadLetters(b0: byte, b1: byte, b2: byte)
    ensures forall i :: 0 <= i < 4 ==> IsLetter(Quad(b0, b1, b2)[i])
  {
    LetterValue(b0 / 4);
    LetterValue((b0 % 4) * 16 + b1 / 16);
    LetterValue((b1 % 16) * 4 + b2 / 64);
    LetterValue(b2 % 64);
  }

  // ------------------------------------------------------------ decoding

  /** The bytes four letter values carry. */
  function Triplet(v0: sextet, v1: sextet, v2: sextet, v3: sextet): seq<byte> {
    [v0 * 4 + v1 / 16, (v1 % 16) * 16 + v2 / 4, (v2 % 4) * 64 + v3]
  }

  /** The values of a run of letters, or None if one is not a letter. */
  function Values(s: string): (r: Option<seq<sextet>>)
    ensures r.Some? ==> |r.value| == |s|
  {
    if s == [] then Some([])
    else match (ValueOf(s[0]), Values(s[1..]))
      case (Some(v), Some(vs)) => Some([v] + vs)
      case _ => None
  }

  /** Decoding by groups of values: four give three bytes, a final three
      give two, a final two give one; a single one left over is an error. */
  function DecodeValues(vs: seq<sextet>): Option<seq<byte>>
    decreases |vs|
  {
    if |vs| >= 4 then
      match DecodeValues(vs[4..])
      case Some(rest) => Some(Triplet(vs[0], vs[1], vs[2], vs[3]) + rest)
      case None => None
    else if |vs| == 3 then Some(Triplet(vs[0], vs[1], vs[2], 0)[..2])
    else if |vs| == 2 then Some(Triplet(vs[0], vs[1], 0, 0)[..1])
    else if |vs| == 1 then None
    else Some([])
  }

  /** Unpadded base64url decoding. */
  function Decode(s: string): Option<seq<byte>> {
    match Values(s)
    case Some(vs) => DecodeValues(vs)
    case None => None
  }

  /** The four letter values of three bytes give the three bytes back. */
  lemma QuadTriplet(b0: byte, b1: byte, b2: byte)
    ensures Triplet(b0 / 4, (b0 % 4) * 16 + b1 / 16, (b1 % 16) * 4 + b2 / 64, b2 % 64) == [b0, b1, b2]
  {
    var v1: sextet := (b0 % 4) * 16 + b1 / 16;
    var v2: sextet := (b1 % 16) * 4 + b2 / 64;
    assert v1 / 16 == b0 % 4 && v1 % 16 == b1 / 16;
    assert v2 / 4 == b1 % 16 && v2 % 4 == b2 / 64;
  }

  /** The letters of a run of values. */
  function Letters(vs: seq<sextet>): (r: string)
    ensures |r| == |vs|
  {
    seq(|vs|, i requires 0 <= i < |vs| => Letter(vs[i]))
  }

  lemma {:induction false} ValuesLetters(vs: seq<sextet>)
    ensures Values(Letters(vs)) == Some(vs)
    decreases |vs|
  {
    if vs != [] {
      ValuesLetters(vs[1..]);
      LetterValue(vs[0]);
      assert Letters(vs)[1..] == Letters(vs[1..]);
      assert [vs[0]] + vs[1..] == vs;
    }
  }

  /** The letter values of an encoding, group by group. */
  function Sextets(bs: seq<byte>): seq<sextet>
    decreases |bs|
  {
    if |bs| >= 3 then
      [bs[0] / 4, (bs[0] % 4) * 16 + bs[1] / 16, (bs[1] % 16) * 4 + bs[2] / 64, bs[2] % 64] + Sextets(bs[3..])
    else if |bs| == 2 then [bs[0] / 4, (bs[0] % 4) * 16 + bs[1] / 16, (bs[1] % 16) * 4]
    else if |bs| == 1 then [bs[0] / 4, (bs[0] % 4) * 16]
    else []
  }

  lemma {:induction false} EncodeLetters(bs: seq<byte>)
    ensures Encode(bs) == Letters(Sextets(bs))
    decreases |bs|
  {
    if |bs| >= 3 {
      EncodeLetters(bs[3..]);
    }
  }

  lemma {:induction false} DecodeSextets(bs: seq<byte>)
    ensures DecodeValues(Sextets(bs)) == Some(bs)
    decreases |bs|
  {
    if |bs| >= 3 {
      DecodeSextets(bs[3..]);
      var vs := Sextets(bs);
      assert vs[4..] == Sextets(bs[3..]);
      QuadTriplet(bs[0], bs[1], bs[2]);
      assert bs == [bs[0], bs[1], bs[2]] + bs[3..];
    } else if |bs| == 2 {
      QuadTriplet(bs[0], bs[1], 0);
      var v2: sextet := (bs[1] % 16) * 4;
      assert Triplet(bs[0] / 4, (bs[0] % 4) * 16 + bs[1] / 16, v2, 0) == [bs[0], bs[1], 0];
      assert [bs[0], bs[1], 0][..2] == bs;
    } else if |bs| == 1 {
      QuadTriplet(bs[0], 0, 0);
      assert Triplet(bs[0] / 4, (bs[0] % 4) * 16, 0, 0) == [bs[0], 0, 0];
      assert [bs[0], 0, 0][..1] == bs;
    }
  }

  /** Decoding undoes encoding. */
  lemma DecodeEncode(bs: seq<byte>)
    ensures Decode(Encode(bs)) == Some(bs)
  {
    EncodeLetters(bs);
    ValuesLetters(Sextets(bs));
    DecodeSextets(bs);
  }

  /** So two byte strings with the same encoding are the same. */
  lemma EncodeInjective(a: seq<byte>, b: seq<byte>)
    ensures Encode(a) == Encode(b) ==> a == b
  {
    DecodeEncode(a);
    DecodeEncode(b);
  }
}
