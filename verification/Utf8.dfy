/** UTF-8 text as bytes, by the grammar of section 4 and the definition in section 3 of RFC 3629. */
module Utf8 {

  type Byte = x: int | 0 <= x < 0x100

  type Text = seq<Byte>

  predicate IsTail(b: Byte)
  {
    0x80 <= b <= 0xBF
  }

  /** The length of the well-formed character at the start, or 0 when there is none. */
  function CharLen(t: Text): (n: nat)
    ensures n <= |t| && n <= 4
  {
    if |t| >= 1 && t[0] <= 0x7F then 1
    else if |t| >= 2 && 0xC2 <= t[0] <= 0xDF && IsTail(t[1]) then 2
    else if |t| >= 3 && SecondOfThree(t[0], t[1]) && IsTail(t[2]) then 3
    else if |t| >= 4 && SecondOfFour(t[0], t[1]) && IsTail(t[2]) && IsTail(t[3]) then 4
    else 0
  }

  /** The second byte rules out overlong forms and surrogates. */
  predicate SecondOfThree(a: Byte, b: Byte)
  {
    || (a == 0xE0 && 0xA0 <= b <= 0xBF)
    || (0xE1 <= a <= 0xEC && IsTail(b))
    || (a == 0xED && 0x80 <= b <= 0x9F)
    || (0xEE <= a <= 0xEF && IsTail(b))
  }

  /** The second byte rules out overlong forms and values above U+10FFFF. */
  predicate SecondOfFour(a: Byte, b: Byte)
  {
    || (a == 0xF0 && 0x90 <= b <= 0xBF)
    || (0xF1 <= a <= 0xF3 && IsTail(b))
    || (a == 0xF4 && 0x80 <= b <= 0x8F)
  }

  /** The code point of the first character. */
  function Decode(t: Text): int
    requires CharLen(t) > 0
  {
    var n, a: int := CharLen(t), t[0];
    if n == 1 then a
    else
      var b: int := t[1];
      if n == 2 then (a - 0xC0) * 0x40 + (b - 0x80)
      else
        var c: int := t[2];
        if n == 3 then (a - 0xE0) * 0x1000 + (b - 0x80) * 0x40 + (c - 0x80)
        else (a - 0xF0) * 0x40000 + (b - 0x80) * 0x1000 + (c - 0x80) * 0x40 + (t[3] - 0x80)
  }

  predicate Valid(t: Text)
  {
    t == [] || (CharLen(t) > 0 && Valid(t[CharLen(t)..]))
  }

  lemma ValidRest(t: Text)
    requires Valid(t) && t != []
    ensures CharLen(t) > 0 && Valid(t[CharLen(t)..])
  {
  }

  /** Every decoded value is a Unicode scalar value, and ASCII values are exactly the one-byte characters. */
  lemma DecodeScalar(t: Text)
    requires CharLen(t) > 0
    ensures 0 <= Decode(t) < 0xD800 || 0xE000 <= Decode(t) <= 0x10FFFF
    ensures Decode(t) < 0x80 <==> CharLen(t) == 1
    ensures CharLen(t) == 1 ==> Decode(t) == t[0]
  {
  }

  /** The Unicode scalar values. */
  predicate IsScalar(c: int)
  {
    0 <= c < 0xD800 || 0xE000 <= c <= 0x10FFFF
  }

  /** The bytes of a scalar value, as the table of section 3 of RFC 3629 lays out its bits. */
  function Encode(c: int): Text
    requires IsScalar(c)
  {
    if c < 0x80 then [c]
    else if c < 0x800 then [0xC0 + c / 0x40, 0x80 + c % 0x40]
    else if c < 0x10000 then [0xE0 + c / 0x1000, 0x80 + c / 0x40 % 0x40, 0x80 + c % 0x40]
    else [0xF0 + c / 0x40000, 0x80 + c / 0x1000 % 0x40, 0x80 + c / 0x40 % 0x40, 0x80 + c % 0x40]
  }

  lemma SixBits(c: int)
    requires 0 <= c
    ensures c == c / 0x40 * 0x40 + c % 0x40 && c / 0x40 / 0x40 == c / 0x1000 && c / 0x1000 / 0x40 == c / 0x40000
  {
  }

  /** Reading what was written gives the value back, whatever follows. */
  lemma DecodeEncoded(c: int, rest: Text)
    requires IsScalar(c)
    ensures CharLen(Encode(c) + rest) == |Encode(c)| && Decode(Encode(c) + rest) == c
  {
    SixBits(c);
    if c >= 0x10000 {
      DecodeFour(c, rest);
    } else if c >= 0x800 {
      DecodeThree(c, rest);
    }
  }

  lemma DecodeThree(c: int, rest: Text)
    requires 0x800 <= c < 0x10000 && IsScalar(c)
    ensures CharLen(Encode(c) + rest) == 3 && Decode(Encode(c) + rest) == c
  {
    SixBits(c);
    SixBits(c / 0x40);
    var t := Encode(c) + rest;
    assert SecondOfThree(t[0], t[1]);
  }

  lemma DecodeFour(c: int, rest: Text)
    requires 0x10000 <= c && IsScalar(c)
    ensures CharLen(Encode(c) + rest) == 4 && Decode(Encode(c) + rest) == c
  {
    SixBits(c);
    SixBits(c / 0x40);
    SixBits(c / 0x1000);
    var t := Encode(c) + rest;
    assert SecondOfFour(t[0], t[1]);
  }

  lemma Packed(a: int, b: int)
    requires 0 <= b < 0x40
    ensures (a * 0x40 + b) / 0x40 == a && (a * 0x40 + b) % 0x40 == b
  {
  }

  /** Writing what was read gives the bytes back: no value has a second form. */
  lemma EncodeDecoded(t: Text)
    requires CharLen(t) > 0
    ensures IsScalar(Decode(t)) && t[..CharLen(t)] == Encode(Decode(t))
  {
    DecodeScalar(t);
    var n := CharLen(t);
    if n == 2 {
      Packed(t[0] - 0xC0, t[1] - 0x80);
    } else if n == 3 {
      EncodeThree(t[0], t[1], t[2]);
    } else if n == 4 {
      EncodeFour(t[0], t[1], t[2], t[3]);
    }
  }

  lemma EncodeThree(a: Byte, b: Byte, c: Byte)
    requires SecondOfThree(a, b) && IsTail(c)
    ensures var v := (a - 0xE0) * 0x1000 + (b - 0x80) * 0x40 + (c - 0x80);
            0x800 <= v < 0x10000 && IsScalar(v) && Encode(v) == [a, b, c]
  {
    var high := (a - 0xE0) * 0x40 + (b - 0x80);
    Packed(a - 0xE0, b - 0x80);
    Packed(high, c - 0x80);
    SixBits(high * 0x40 + (c - 0x80));
  }

  lemma EncodeFour(a: Byte, b: Byte, c: Byte, d: Byte)
    requires SecondOfFour(a, b) && IsTail(c) && IsTail(d)
    ensures var v := (a - 0xF0) * 0x40000 + (b - 0x80) * 0x1000 + (c - 0x80) * 0x40 + (d - 0x80);
            0x10000 <= v && IsScalar(v) && Encode(v) == [a, b, c, d]
  {
    var top := (a - 0xF0) * 0x40 + (b - 0x80);
    var high := top * 0x40 + (c - 0x80);
    Packed(a - 0xF0, b - 0x80);
    Packed(top, c - 0x80);
    Packed(high, d - 0x80);
    SixBits(high * 0x40 + (d - 0x80));
  }

  lemma DropDrop(t: Text, n: nat, m: nat)
    requires n + m <= |t|
    ensures t[n..][m..] == t[n + m..]
  {
  }

  /** A character's first byte is no tail byte and all its other bytes are. */
  lemma CharBytes(t: Text)
    requires CharLen(t) > 0
    ensures !IsTail(t[0]) && forall k :: 0 < k < CharLen(t) ==> IsTail(t[k])
  {
  }

  /**
   * In valid text, an offset starts a valid suffix exactly when it is the end or its byte is not a
   * tail byte: the test a string slice makes for a character boundary.
   */
  lemma {:induction false} BoundaryExactly(t: Text, k: nat)
    requires Valid(t) && k <= |t|
    ensures Valid(t[k..]) <==> k == |t| || !IsTail(t[k])
    decreases |t|
  {
    if k < |t| {
      var n := CharLen(t);
      CharBytes(t);
      if k < n {
        assert t[0..] == t;
        if k > 0 {
          assert t[k..][0] == t[k];
          if Valid(t[k..]) {
            CharBytes(t[k..]);
          }
        }
      } else {
        BoundaryExactly(t[n..], k - n);
        DropDrop(t, n, k - n);
      }
    }
  }
}
