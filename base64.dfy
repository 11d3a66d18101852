/**
 * Base 64 encoding as defined in section 4 of RFC 4648: every 3 bytes become 4 characters
 * of the 64-character alphabet, and a final group of 1 or 2 bytes is padded with '='.
 */
module Base64 {
  newtype byte = x: int | 0 <= x < 256

  const Padding: char := '='

  /** Table 1 of RFC 4648: 'A'..'Z', then 'a'..'z', then '0'..'9', then '+' and '/'. */
  function Char(i: int): (c: char)
    requires 0 <= i < 64
    ensures c != Padding
  {
    if i < 26 then (i + 'A' as int) as char
    else if i < 52 then (i - 26 + 'a' as int) as char
    else if i < 62 then (i - 52 + '0' as int) as char
    else if i == 62 then '+'
    else '/'
  }

  /** The value of an alphabet character, or -1 for any other character. */
  function IndexOf(c: char): (r: int)
    ensures -1 <= r < 64
    ensures r >= 0 ==> Char(r) == c
    ensures c == Padding ==> r == -1
  {
    if 'A' <= c <= 'Z' then c as int - 'A' as int
    else if 'a' <= c <= 'z' then c as int - 'a' as int + 26
    else if '0' <= c <= '9' then c as int - '0' as int + 52
    else if c == '+' then 62
    else if c == '/' then 63
    else -1
  }

  lemma IndexOfChar(i: int)
    requires 0 <= i < 64
    ensures IndexOf(Char(i)) == i
  {
  }

  /** The characters an encoding may contain. */
  predicate InAlphabet(c: char)
  {
    IndexOf(c) >= 0 || c == Padding
  }

  /** Three bytes as four 6-bit groups, most significant first. */
  function EncodeGroup(b0: byte, b1: byte, b2: byte): (r: string)
    ensures |r| == 4 && forall i :: 0 <= i < 4 ==> IndexOf(r[i]) >= 0
  {
    var c0, c1 := b0 as int / 4, (b0 as int % 4) * 16 + b1 as int / 16;
    var c2, c3 := (b1 as int % 16) * 4 + b2 as int / 64, b2 as int % 64;
    IndexOfChar(c0); IndexOfChar(c1); IndexOfChar(c2); IndexOfChar(c3);
    [Char(c0), Char(c1), Char(c2), Char(c3)]
  }

  /** The last group, of 0, 1 or 2 bytes, with its padding. */
  function EncodeTail(bs: seq<byte>): (r: string)
    requires |bs| < 3
    ensures |r| == (if bs == [] then 0 else 4)
    ensures forall i :: 0 <= i < |r| ==> InAlphabet(r[i])
  {
    if |bs| == 0 then ""
    else if |bs| == 1 then
      var c0, c1 := bs[0] as int / 4, (bs[0] as int % 4) * 16;
      IndexOfChar(c0); IndexOfChar(c1);
      [Char(c0), Char(c1), Padding, Padding]
    else
      var c0, c1 := bs[0] as int / 4, (bs[0] as int % 4) * 16 + bs[1] as int / 16;
      var c2 := (bs[1] as int % 16) * 4;
      IndexOfChar(c0); IndexOfChar(c1); IndexOfChar(c2);
      [Char(c0), Char(c1), Char(c2), Padding]
  }

  function Encode(bs: seq<byte>): (r: string)
    ensures |r| == 4 * ((|bs| + 2) / 3) && |r| % 4 == 0
    ensures forall i :: 0 <= i < |r| ==> InAlphabet(r[i])
  {
    if |bs| < 3 then EncodeTail(bs)
    else
      var head, rest := EncodeGroup(bs[0], bs[1], bs[2]), Encode(bs[3..]);
      assert (|bs| + 2) / 3 == (|bs| - 1) / 3 + 1;
      assert forall i :: 4 <= i < |head + rest| ==> (head + rest)[i] == rest[i - 4];
      head + rest
  }

  /** The low 8 bits of `x`. */
  function Byte(x: int): byte
  {
    if 0 <= x < 256 then x as byte else (x % 256) as byte
  }

  /** Four characters back to the 1, 2 or 3 bytes they encode. */
  function DecodeQuad(w: char, x: char, y: char, z: char): seq<byte>
  {
    var i, j, k, l := IndexOf(w), IndexOf(x), IndexOf(y), IndexOf(z);
    if i < 0 || j < 0 then []
    else if y == Padding then [Byte(i * 4 + j / 16)]
    else if k < 0 then []
    else if z == Padding then [Byte(i * 4 + j / 16), Byte((j % 16) * 16 + k / 4)]
    else if l < 0 then []
    else [Byte(i * 4 + j / 16), Byte((j % 16) * 16 + k / 4), Byte((k % 4) * 64 + l)]
  }

  /** The inverse mapping, for text whose length is a multiple of 4. */
  function Decode(s: string): seq<byte>
    requires |s| % 4 == 0
  {
    if |s| == 0 then [] else DecodeQuad(s[0], s[1], s[2], s[3]) + Decode(s[4..])
  }

  // The three ways a byte is split across two 6-bit groups, and put back together.

  lemma SplitFirst(b0: int, b1: int)
    requires 0 <= b0 < 256 && 0 <= b1 < 256
    ensures var c1 := (b0 % 4) * 16 + b1 / 16;
      0 <= c1 < 64 && b0 / 4 * 4 + c1 / 16 == b0 && c1 % 16 == b1 / 16
  {
  }

  lemma SplitSecond(b1: int, b2: int)
    requires 0 <= b1 < 256 && 0 <= b2 < 256
    ensures var c2 := (b1 % 16) * 4 + b2 / 64;
      0 <= c2 < 64 && b1 / 16 * 16 + c2 / 4 == b1 && c2 % 4 == b2 / 64
  {
  }

  lemma SplitThird(b2: int)
    requires 0 <= b2 < 256
    ensures b2 / 64 * 64 + b2 % 64 == b2
  {
  }

  /** Four alphabet characters decode to the bytes their 6-bit values spell. */
  lemma DecodeSextets(c0: int, c1: int, c2: int, c3: int)
    requires 0 <= c0 < 64 && 0 <= c1 < 64 && 0 <= c2 < 64 && 0 <= c3 < 64
    ensures DecodeQuad(Char(c0), Char(c1), Char(c2), Char(c3)) ==
      [Byte(c0 * 4 + c1 / 16), Byte((c1 % 16) * 16 + c2 / 4), Byte((c2 % 4) * 64 + c3)]
  {
    IndexOfChar(c0); IndexOfChar(c1); IndexOfChar(c2); IndexOfChar(c3);
  }

  /** The four 6-bit groups of three bytes put back together give the bytes. */
  lemma Rejoin(b0: int, b1: int, b2: int)
    requires 0 <= b0 < 256 && 0 <= b1 < 256 && 0 <= b2 < 256
    ensures var c0, c1 := b0 / 4, (b0 % 4) * 16 + b1 / 16;
      var c2, c3 := (b1 % 16) * 4 + b2 / 64, b2 % 64;
      c0 * 4 + c1 / 16 == b0 && (c1 % 16) * 16 + c2 / 4 == b1 && (c2 % 4) * 64 + c3 == b2
  {
    SplitFirst(b0, b1);
    SplitSecond(b1, b2);
    SplitThird(b2);
  }

  lemma DecodeGroup(b0: byte, b1: byte, b2: byte)
    ensures var g := EncodeGroup(b0, b1, b2);
      DecodeQuad(g[0], g[1], g[2], g[3]) == [b0, b1, b2]
  {
    var c0, c1 := b0 as int / 4, (b0 as int % 4) * 16 + b1 as int / 16;
    var c2, c3 := (b1 as int % 16) * 4 + b2 as int / 64, b2 as int % 64;
    var g := EncodeGroup(b0, b1, b2);
    assert g == [Char(c0), Char(c1), Char(c2), Char(c3)];
    DecodeSextets(c0, c1, c2, c3);
    Rejoin(b0 as int, b1 as int, b2 as int);
  }

  lemma DecodeOne(b0: byte)
    ensures Decode(EncodeTail([b0])) == [b0]
  {
    var c0, c1 := b0 as int / 4, (b0 as int % 4) * 16;
    IndexOfChar(c0); IndexOfChar(c1);
    SplitFirst(b0 as int, 0);
    var e := EncodeTail([b0]);
    assert e == [Char(c0), Char(c1), Padding, Padding];
    assert DecodeQuad(e[0], e[1], e[2], e[3]) == [b0];
    assert Decode(e) == DecodeQuad(e[0], e[1], e[2], e[3]) + Decode(e[4..]);
  }

  lemma DecodeTwo(b0: byte, b1: byte)
    ensures Decode(EncodeTail([b0, b1])) == [b0, b1]
  {
    var c0, c1 := b0 as int / 4, (b0 as int % 4) * 16 + b1 as int / 16;
    var c2 := (b1 as int % 16) * 4;
    IndexOfChar(c0); IndexOfChar(c1); IndexOfChar(c2);
    SplitFirst(b0 as int, b1 as int);
    SplitSecond(b1 as int, 0);
    var e := EncodeTail([b0, b1]);
    assert e == [Char(c0), Char(c1), Char(c2), Padding];
    assert DecodeQuad(e[0], e[1], e[2], e[3]) == [b0, b1];
    assert Decode(e) == DecodeQuad(e[0], e[1], e[2], e[3]) + Decode(e[4..]);
  }

  lemma DecodeTail(bs: seq<byte>)
    requires |bs| < 3
    ensures Decode(EncodeTail(bs)) == bs
  {
    if |bs| == 2 {
      DecodeTwo(bs[0], bs[1]);
      assert bs == [bs[0], bs[1]];
    } else if |bs| == 1 {
      DecodeOne(bs[0]);
      assert bs == [bs[0]];
    }
  }

  /** Decoding undoes encoding. */
  lemma {:induction false} DecodeEncode(bs: seq<byte>)
    ensures Decode(Encode(bs)) == bs
  {
    if |bs| >= 3 {
      var head, rest := EncodeGroup(bs[0], bs[1], bs[2]), Encode(bs[3..]);
      var e := head + rest;
      assert Encode(bs) == e;
      assert e[4..] == rest;
      assert Decode(e) == DecodeQuad(e[0], e[1], e[2], e[3]) + Decode(rest);
      DecodeGroup(bs[0], bs[1], bs[2]);
      DecodeEncode(bs[3..]);
      assert bs == [bs[0], bs[1], bs[2]] + bs[3..];
    } else {
      DecodeTail(bs);
    }
  }

  /** Padding appears only in the last two characters. */
  lemma {:induction false} PaddingOnlyAtEnd(bs: seq<byte>)
    ensures forall i :: 0 <= i < |Encode(bs)| - 2 ==> Encode(bs)[i] != Padding
  {
    if |bs| >= 3 {
      PaddingOnlyAtEnd(bs[3..]);
      var head, rest := EncodeGroup(bs[0], bs[1], bs[2]), Encode(bs[3..]);
      assert Encode(bs) == head + rest;
      forall i | 0 <= i < |Encode(bs)| - 2
        ensures Encode(bs)[i] != Padding
      {
        if i >= 4 {
          assert Encode(bs)[i] == rest[i - 4];
        } else {
          assert Encode(bs)[i] == head[i];
        }
      }
    }
  }

  /** The test vectors of section 10 of RFC 4648 for "f", "fo" and "foo". */
  lemma TestVectors()
    ensures Encode([102]) == "Zg=="
    ensures Encode([102, 111]) == "Zm8="
    ensures Encode([102, 111, 111]) == "Zm9v"
  {
  }
}
