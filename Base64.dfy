/** `Convert.ToBase64String`: the base 64 encoding of section 4 of RFC 4648
    (alphabet A-Z a-z 0-9 + /, '=' padding), with the decoder that inverts it. */
module Base64 {
  import opened Wrappers

  predicate IsBase64Char(c: char) {
    ('A' <= c <= 'Z') || ('a' <= c <= 'z') || ('0' <= c <= '9') || c == '+' || c == '/'
  }

  /** The alphabet's character for a 6-bit value; `ValueOf` reads it back. */
  function CharOf(v: bv8): (c: char)
    requires v < 64
    ensures IsBase64Char(c)
    ensures ValueOf(c) == v
  {
    if v < 26 then ('A' as int + v as int) as char
    else if v < 52 then ('a' as int + v as int - 26) as char
    else if v < 62 then ('0' as int + v as int - 52) as char
    else if v == 62 then '+'
    else '/'
  }

  function ValueOf(c: char): (v: bv8)
    requires IsBase64Char(c)
    ensures v < 64
  {
    if 'A' <= c <= 'Z' then (c as int - 'A' as int) as bv8
    else if 'a' <= c <= 'z' then (c as int - 'a' as int + 26) as bv8
    else if '0' <= c <= '9' then (c as int - '0' as int + 52) as bv8
    else if c == '+' then 62
    else 63
  }

  /** Number of '=' characters that close the encoding of n bytes. */
  function Padding(n: nat): nat {
    (3 - n % 3) % 3
  }

  /** Three bytes as four characters. */
  function Quad(b0: bv8, b1: bv8, b2: bv8): (r: string)
    ensures |r| == 4 && forall i :: 0 <= i < 4 ==> IsBase64Char(r[i])
  {
    [CharOf(b0 >> 2), CharOf(((b0 & 3) << 4) | (b1 >> 4)), CharOf(((b1 & 15) << 2) | (b2 >> 6)), CharOf(b2 & 63)]
  }

  /** Two final bytes: three characters and one '='. */
  function QuadOfTwo(b0: bv8, b1: bv8): (r: string)
    ensures |r| == 4 && IsBase64Char(r[0]) && IsBase64Char(r[1]) && IsBase64Char(r[2]) && r[3] == '='
  {
    [CharOf(b0 >> 2), CharOf(((b0 & 3) << 4) | (b1 >> 4)), CharOf((b1 & 15) << 2), '=']
  }

  /** One final byte: two characters and two '='. */
  function QuadOfOne(b0: bv8): (r: string)
    ensures |r| == 4 && IsBase64Char(r[0]) && IsBase64Char(r[1]) && r[2] == '=' && r[3] == '='
  {
    [CharOf(b0 >> 2), CharOf((b0 & 3) << 4), '=', '=']
  }

  function Encode(b: seq<bv8>): string
    decreases |b|
  {
    if |b| == 0 then ""
    else if |b| == 1 then QuadOfOne(b[0])
    else if |b| == 2 then QuadOfTwo(b[0], b[1])
    else Quad(b[0], b[1], b[2]) + Encode(b[3..])
  }

  function Bytes3(v0: bv8, v1: bv8, v2: bv8, v3: bv8): seq<bv8> {
    [(v0 << 2) | (v1 >> 4), (v1 << 4) | (v2 >> 2), (v2 << 6) | v3]
  }

  function Bytes2(v0: bv8, v1: bv8, v2: bv8): seq<bv8> {
    [(v0 << 2) | (v1 >> 4), (v1 << 4) | (v2 >> 2)]
  }

  function Bytes1(v0: bv8, v1: bv8): seq<bv8> {
    [(v0 << 2) | (v1 >> 4)]
  }

  function Decode(s: string): Option<seq<bv8>>
    decreases |s|
  {
    if |s| == 0 then Some([])
    else if |s| < 4 || !IsBase64Char(s[0]) || !IsBase64Char(s[1]) then None
    else if |s| == 4 && s[2] == '=' && s[3] == '=' then
      Some(Bytes1(ValueOf(s[0]), ValueOf(s[1])))
    else if !IsBase64Char(s[2]) then None
    else if |s| == 4 && s[3] == '=' then
      Some(Bytes2(ValueOf(s[0]), ValueOf(s[1]), ValueOf(s[2])))
    else if !IsBase64Char(s[3]) then None
    else match Decode(s[4..])
      case None => None
      case Some(rest) => Some(Bytes3(ValueOf(s[0]), ValueOf(s[1]), ValueOf(s[2]), ValueOf(s[3])) + rest)
  }

  lemma QuadBits(b0: bv8, b1: bv8, b2: bv8)
    ensures var q := Quad(b0, b1, b2); Bytes3(ValueOf(q[0]), ValueOf(q[1]), ValueOf(q[2]), ValueOf(q[3])) == [b0, b1, b2]
  {
    assert (((b0 >> 2) << 2) | ((((b0 & 3) << 4) | (b1 >> 4)) >> 4)) == b0;
    assert (((((b0 & 3) << 4) | (b1 >> 4)) << 4) | ((((b1 & 15) << 2) | (b2 >> 6)) >> 2)) == b1;
    assert (((((b1 & 15) << 2) | (b2 >> 6)) << 6) | (b2 & 63)) == b2;
  }

  lemma QuadOfTwoBits(b0: bv8, b1: bv8)
    ensures var q := QuadOfTwo(b0, b1); Bytes2(ValueOf(q[0]), ValueOf(q[1]), ValueOf(q[2])) == [b0, b1]
  {
    assert (((b0 >> 2) << 2) | ((((b0 & 3) << 4) | (b1 >> 4)) >> 4)) == b0;
    assert (((((b0 & 3) << 4) | (b1 >> 4)) << 4) | (((b1 & 15) << 2) >> 2)) == b1;
  }

  lemma QuadOfOneBits(b0: bv8)
    ensures var q := QuadOfOne(b0); Bytes1(ValueOf(q[0]), ValueOf(q[1])) == [b0]
  {
    assert (((b0 >> 2) << 2) | (((b0 & 3) << 4) >> 4)) == b0;
  }

  /** The encoding of n bytes has 4 * ceil(n / 3) characters. */
  lemma {:induction false} EncodeLength(b: seq<bv8>)
    ensures |Encode(b)| == 4 * ((|b| + 2) / 3)
  {
    if |b| >= 3 {
      EncodeLength(b[3..]);
      assert (|b| + 2) / 3 == 1 + (|b[3..]| + 2) / 3;
    }
  }

  /** Alphabet characters followed by exactly `p` '=' characters. */
  predicate PaddedShape(e: string, p: nat) {
    && p <= |e|
    && (forall i :: 0 <= i < |e| - p ==> IsBase64Char(e[i]))
    && (forall i :: |e| - p <= i < |e| ==> e[i] == '=')
  }

  /** A full quad in front of a padded text keeps the text's padding. */
  lemma PaddedConcat(q: string, tail: string, p: nat)
    requires |q| == 4 && forall i :: 0 <= i < 4 ==> IsBase64Char(q[i])
    requires PaddedShape(tail, p)
    ensures PaddedShape(q + tail, p)
  {
    var e := q + tail;
    forall i | 0 <= i < |e| ensures e[i] == if i < 4 then q[i] else tail[i - 4] {
    }
  }

  /** The encoding of n bytes is alphabet characters followed by exactly
      `Padding(n)` '=' characters. */
  lemma {:induction false} EncodeShape(b: seq<bv8>)
    ensures |Encode(b)| == 4 * ((|b| + 2) / 3)
    ensures forall i :: 0 <= i < |Encode(b)| - Padding(|b|) ==> IsBase64Char(Encode(b)[i])
    ensures forall i :: |Encode(b)| - Padding(|b|) <= i < |Encode(b)| ==> Encode(b)[i] == '='
  {
    EncodeLength(b);
    EncodePadded(b);
  }

  lemma {:induction false} EncodePadded(b: seq<bv8>)
    ensures PaddedShape(Encode(b), Padding(|b|))
  {
    if |b| >= 3 {
      EncodePadded(b[3..]);
      PaddingStep(|b|);
      PaddedConcat(Quad(b[0], b[1], b[2]), Encode(b[3..]), Padding(|b|));
    } else if |b| == 2 {
      assert Padding(2) == 1;
      var e := QuadOfTwo(b[0], b[1]);
      assert PaddedShape(e, 1);
    } else if |b| == 1 {
      assert Padding(1) == 2;
      var e := QuadOfOne(b[0]);
      assert PaddedShape(e, 2);
    }
  }

  lemma PaddingStep(n: nat)
    requires n >= 3
    ensures Padding(n) == Padding(n - 3)
  {
    assert n % 3 == (n - 3) % 3;
  }

  /** A full quad in front of a decodable tail decodes to its three bytes followed by the tail's. */
  lemma DecodeFullQuad(q: string, tail: string)
    requires |q| == 4 && forall i :: 0 <= i < 4 ==> IsBase64Char(q[i])
    requires Decode(tail).Some?
    ensures Decode(q + tail) == Some(Bytes3(ValueOf(q[0]), ValueOf(q[1]), ValueOf(q[2]), ValueOf(q[3])) + Decode(tail).value)
  {
    var s := q + tail;
    assert s[..4] == q && s[4..] == tail;
    assert s[0] == q[0] && s[1] == q[1] && s[2] == q[2] && s[3] == q[3];
  }

  lemma DecodeQuadOfTwo(b0: bv8, b1: bv8)
    ensures Decode(QuadOfTwo(b0, b1)) == Some([b0, b1])
  {
    QuadOfTwoBits(b0, b1);
  }

  lemma DecodeQuadOfOne(b0: bv8)
    ensures Decode(QuadOfOne(b0)) == Some([b0])
  {
    QuadOfOneBits(b0);
  }

  /** `Decode` inverts `Encode`. */
  lemma {:induction false} DecodeEncode(b: seq<bv8>)
    ensures Decode(Encode(b)) == Some(b)
  {
    if |b| >= 3 {
      var q, tail := Quad(b[0], b[1], b[2]), Encode(b[3..]);
      assert Encode(b) == q + tail;
      DecodeEncode(b[3..]);
      DecodeFullQuad(q, tail);
      QuadBits(b[0], b[1], b[2]);
      assert [b[0], b[1], b[2]] + b[3..] == b;
    } else if |b| == 2 {
      DecodeQuadOfTwo(b[0], b[1]);
      assert [b[0], b[1]] == b;
    } else if |b| == 1 {
      DecodeQuadOfOne(b[0]);
      assert [b[0]] == b;
    }
  }
}
