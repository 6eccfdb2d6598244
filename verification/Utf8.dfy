/** Bytes, and the encoding of text in them (RFC 3629, section 3). */
module Utf8 {
  import opened Options
  import opened Text

  type Byte = b: int | 0 <= b < 256

  function EncodeChar(c: char): seq<Byte> {
    var n := c as int;
    if n < 0x80 then [n]
    else if n < 0x800 then [0xC0 + n / 0x40, 0x80 + n % 0x40]
    else if n < 0x1_0000 then [0xE0 + n / 0x1000, 0x80 + n / 0x40 % 0x40, 0x80 + n % 0x40]
    else [0xF0 + n / 0x4_0000, 0x80 + n / 0x1000 % 0x40, 0x80 + n / 0x40 % 0x40, 0x80 + n % 0x40]
  }

  function Encode(s: string): seq<Byte> {
    if s == "" then [] else EncodeChar(s[0]) + Encode(s[1..])
  }

  lemma {:induction false} EncodeAppend(s: string, t: string)
    ensures Encode(s + t) == Encode(s) + Encode(t)
    decreases |s|
  {
    hide EncodeChar;
    if s == "" {
      assert s + t == t;
    } else {
      EncodeAppend(s[1..], t);
      assert (s + t)[0] == s[0] && (s + t)[1..] == s[1..] + t;
      AppendAssoc(EncodeChar(s[0]), Encode(s[1..]), Encode(t));
    }
  }

  /** An ASCII byte in the encoding is an ASCII character of the text. */
  lemma {:induction false} EncodeKeepsAscii(s: string, c: char)
    requires (c as int) < 0x80
    ensures (c as int) in Encode(s) ==> c in s
    decreases |s|
  {
    if s != "" {
      EncodeKeepsAscii(s[1..], c);
      var b := c as int;
      if b in EncodeChar(s[0]) {
        assert s[0] as int < 0x80;
        assert s[0] as int == b;
      }
    }
  }

  predicate IsContinuation(b: Byte) {
    0x80 <= b < 0xC0
  }

  datatype Decoded = Decoded(c: char, size: nat)

  /** The bits a byte carries above its mark. */
  function Bits(b: Byte, mark: int): int {
    b as int - mark
  }

  /** A code point, unless it is too small for its length or no scalar value. */
  function Scalar(n: int, least: int, size: nat): (r: Option<Decoded>)
    ensures r.Some? ==> r.value.size == size
  {
    if least <= n < 0x11_0000 && 0 <= n && !(0xD800 <= n < 0xE000) then Some(Decoded(n as char, size)) else None
  }

  /** The character at the start, if the bytes there are a shortest form of one. */
  function DecodeChar(b: seq<Byte>): (r: Option<Decoded>)
    ensures r.Some? ==> 0 < r.value.size <= |b|
  {
    if b == [] then None
    else if b[0] < 0x80 then Scalar(Bits(b[0], 0), 0, 1)
    else if 0xC0 <= b[0] < 0xE0 && |b| >= 2 && IsContinuation(b[1]) then
      Scalar(Bits(b[0], 0xC0) * 0x40 + Bits(b[1], 0x80), 0x80, 2)
    else if 0xE0 <= b[0] < 0xF0 && |b| >= 3 && IsContinuation(b[1]) && IsContinuation(b[2]) then
      Scalar(Bits(b[0], 0xE0) * 0x1000 + Bits(b[1], 0x80) * 0x40 + Bits(b[2], 0x80), 0x800, 3)
    else if 0xF0 <= b[0] < 0xF8 && |b| >= 4 && IsContinuation(b[1]) && IsContinuation(b[2]) && IsContinuation(b[3]) then
      Scalar(Bits(b[0], 0xF0) * 0x4_0000 + Bits(b[1], 0x80) * 0x1000 + Bits(b[2], 0x80) * 0x40 + Bits(b[3], 0x80), 0x1_0000, 4)
    else None
  }

  /** `bytes.decode("utf-8")`; `None` stands for the decoding error. */
  function Decode(b: seq<Byte>): Option<string>
    decreases |b|
  {
    if b == [] then Some("")
    else
      var first := DecodeChar(b);
      if first.None? then None
      else
        var rest := Decode(b[first.value.size..]);
        if rest.None? then None else Some([first.value.c] + rest.value)
  }

  lemma Digits(n: nat)
    ensures n == n / 0x40 * 0x40 + n % 0x40
    ensures n / 0x40 == n / 0x1000 * 0x40 + n / 0x40 % 0x40
    ensures n / 0x1000 == n / 0x4_0000 * 0x40 + n / 0x1000 % 0x40
  {
  }

  lemma {:induction false} DecodeOfEncodeChar(c: char, rest: seq<Byte>)
    ensures DecodeChar(EncodeChar(c) + rest) == Some(Decoded(c, |EncodeChar(c)|))
  {
    var b, e := EncodeChar(c) + rest, EncodeChar(c);
    assert forall i :: 0 <= i < |e| ==> b[i] == e[i];
    Digits(c as int);
    if c as int < 0x80 {
      assert b[0] == e[0];
    } else if c as int < 0x800 {
      assert b[0] == e[0] && b[1] == e[1];
    } else if c as int < 0x1_0000 {
      assert b[0] == e[0] && b[1] == e[1] && b[2] == e[2];
    } else {
      assert b[0] == e[0] && b[1] == e[1] && b[2] == e[2] && b[3] == e[3];
    }
  }

  /** Every text is read back from its encoding. */
  lemma {:induction false} DecodeOfEncode(s: string)
    ensures Decode(Encode(s)) == Some(s)
    decreases |s|
  {
    if s != "" {
      var e, rest := EncodeChar(s[0]), Encode(s[1..]);
      DecodeOfEncodeChar(s[0], rest);
      DecodeOfEncode(s[1..]);
      hide DecodeChar, EncodeChar;
      assert (e + rest)[|e|..] == rest;
      assert s == [s[0]] + s[1..];
    }
  }

  /** What is read as a character is that character's encoding. */
  lemma {:induction false} EncodeOfDecodeChar(b: seq<Byte>)
    requires DecodeChar(b).Some?
    ensures var d := DecodeChar(b).value;
      EncodeChar(d.c) == b[..d.size]
  {
    if b[0] < 0x80 {
    } else if b[0] < 0xE0 {
      Splits2(Bits(b[0], 0xC0), Bits(b[1], 0x80));
    } else if b[0] < 0xF0 {
      Splits3(Bits(b[0], 0xE0), Bits(b[1], 0x80), Bits(b[2], 0x80));
    } else {
      Splits4(Bits(b[0], 0xF0), Bits(b[1], 0x80), Bits(b[2], 0x80), Bits(b[3], 0x80));
    }
  }

  lemma Splits2(x: nat, y: nat)
    requires y < 0x40
    ensures (x * 0x40 + y) / 0x40 == x && (x * 0x40 + y) % 0x40 == y
  {
  }

  lemma Splits3(x: nat, y: nat, z: nat)
    requires y < 0x40 && z < 0x40
    ensures var n := x * 0x1000 + y * 0x40 + z;
      n / 0x1000 == x && n / 0x40 % 0x40 == y && n % 0x40 == z
  {
  }

  lemma Splits4(w: nat, x: nat, y: nat, z: nat)
    requires x < 0x40 && y < 0x40 && z < 0x40
    ensures var n := w * 0x4_0000 + x * 0x1000 + y * 0x40 + z;
      n / 0x4_0000 == w && n / 0x1000 % 0x40 == x && n / 0x40 % 0x40 == y && n % 0x40 == z
  {
    var n, l := w * 0x4_0000 + x * 0x1000 + y * 0x40 + z, w * 0x40 + x;
    var m := l * 0x40 + y;
    assert n == m * 0x40 + z;
    Splits2(m, z);
    Splits2(l, y);
    Splits2(w, x);
    assert n / 0x1000 == n / 0x40 / 0x40 && n / 0x4_0000 == n / 0x1000 / 0x40;
  }

  /** Exactly the encodings are decoded, each to the text it encodes. */
  lemma {:induction false} DecodesIff(b: seq<Byte>, s: string)
    ensures Decode(b) == Some(s) <==> b == Encode(s)
    decreases |b|
  {
    if b == Encode(s) {
      DecodeOfEncode(s);
    }
    if Decode(b) == Some(s) && b != [] {
      hide DecodeChar, EncodeChar;
      var first := DecodeChar(b).value;
      EncodeOfDecodeChar(b);
      assert s[0] == first.c;
      DecodesIff(b[first.size..], s[1..]);
      assert b == b[..first.size] + b[first.size..];
    }
  }
}
