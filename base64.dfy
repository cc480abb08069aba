/**
 * The base64 text decoding behind `TransactionProcessor.base64Decode`
 * (`Buffer.from(str, 'base64').toString('binary')`).
 *
 * Node's decoder is lenient: it accepts both the standard and the URL-safe
 * alphabet, skips characters outside the alphabet, stops at the first `=`,
 * and drops a trailing group of a single character. `toString('binary')`
 * turns every byte into the character with that code (Latin-1).
 * `Encode` is the padded encoding of section 4 of RFC 4648; `DecodeEncode`
 * proves that decoding undoes it.
 */
module Base64 {
  type Byte = x: int | 0 <= x < 256
  type Sextet = x: int | 0 <= x < 64

  /** The 6-bit value of an alphabet character, or -1 for any other character. */
  function ValueOf(c: char): (v: int)
    ensures -1 <= v < 64
  {
    if 'A' <= c <= 'Z' then c as int - 'A' as int
    else if 'a' <= c <= 'z' then c as int - 'a' as int + 26
    else if '0' <= c <= '9' then c as int - '0' as int + 52
    else if c == '+' || c == '-' then 62
    else if c == '/' || c == '_' then 63
    else -1
  }

  /** The character of the standard alphabet that stands for `v`. */
  function CharOf(v: Sextet): (c: char)
    ensures ValueOf(c) == v
    ensures c != '='
  {
    if v < 26 then ('A' as int + v) as char
    else if v < 52 then ('a' as int + v - 26) as char
    else if v < 62 then ('0' as int + v - 52) as char
    else if v == 62 then '+'
    else '/'
  }

  /** The 6-bit values the decoder reads: alphabet characters up to the first `=`, others skipped. */
  function Sextets(s: string): (q: seq<Sextet>)
    ensures |q| <= |s|
  {
    if s == [] || s[0] == '=' then []
    else if ValueOf(s[0]) < 0 then Sextets(s[1..])
    else [ValueOf(s[0]) as Sextet] + Sextets(s[1..])
  }

  /** Groups of four sextets make three bytes; a trailing group of two or three makes one or two. */
  function BytesOf(q: seq<Sextet>): (b: seq<Byte>)
    ensures |b| == (|q| / 4) * 3 + (if |q| % 4 == 0 then 0 else |q| % 4 - 1)
  {
    if |q| < 2 then []
    else
      var v0, v1 := q[0] as int, q[1] as int;
      if |q| == 2 then [v0 * 4 + v1 / 16]
      else
        var v2 := q[2] as int;
        if |q| == 3 then [v0 * 4 + v1 / 16, (v1 % 16) * 16 + v2 / 4]
        else [v0 * 4 + v1 / 16, (v1 % 16) * 16 + v2 / 4, (v2 % 4) * 64 + q[3] as int] + BytesOf(q[4..])
  }

  /** `Buffer.toString('binary')`: one character per byte. */
  function Latin1(b: seq<Byte>): (s: string)
    ensures |s| == |b|
    ensures forall i :: 0 <= i < |b| ==> s[i] as int == b[i]
  {
    seq(|b|, i requires 0 <= i < |b| => b[i] as char)
  }

  /** `base64Decode`: a binary string (every code below 256), never longer than its input. */
  function Decode(s: string): (r: string)
    ensures |r| <= |s|
    ensures forall i :: 0 <= i < |r| ==> r[i] as int < 256
  {
    Latin1(BytesOf(Sextets(s)))
  }

  /** Padded base64 encoding (section 4 of RFC 4648). */
  function Encode(b: seq<Byte>): (s: string)
    ensures |s| == (|b| + 2) / 3 * 4
  {
    if |b| == 0 then ""
    else if |b| == 1 then [CharOf(b[0] / 4), CharOf((b[0] % 4) * 16), '=', '=']
    else if |b| == 2 then [CharOf(b[0] / 4), CharOf((b[0] % 4) * 16 + b[1] / 16), CharOf((b[1] % 16) * 4), '=']
    else [CharOf(b[0] / 4), CharOf((b[0] % 4) * 16 + b[1] / 16), CharOf((b[1] % 16) * 4 + b[2] / 64), CharOf(b[2] % 64)]
         + Encode(b[3..])
  }

  /** An alphabet character in front of the rest is read as its value. */
  lemma SextetsCons(c: char, rest: string)
    requires ValueOf(c) >= 0 && c != '='
    ensures Sextets([c] + rest) == [ValueOf(c) as Sextet] + Sextets(rest)
  {
    assert ([c] + rest)[1..] == rest;
  }

  /** Four alphabet characters in front of the rest are read as their four values. */
  lemma SextetsOfGroup(c0: char, c1: char, c2: char, c3: char, rest: string)
    requires ValueOf(c0) >= 0 && ValueOf(c1) >= 0 && ValueOf(c2) >= 0 && ValueOf(c3) >= 0
    requires c0 != '=' && c1 != '=' && c2 != '=' && c3 != '='
    ensures Sextets([c0, c1, c2, c3] + rest)
         == [ValueOf(c0) as Sextet, ValueOf(c1) as Sextet, ValueOf(c2) as Sextet, ValueOf(c3) as Sextet] + Sextets(rest)
  {
    var s3 := [c3] + rest;
    var s2 := [c2] + s3;
    var s1 := [c1] + s2;
    assert [c0, c1, c2, c3] + rest == [c0] + s1;
    SextetsCons(c3, rest);
    SextetsCons(c2, s3);
    SextetsCons(c1, s2);
    SextetsCons(c0, s1);
  }

  lemma ThreeBytes(b0: Byte, b1: Byte, b2: Byte)
    ensures (b0 / 4) * 4 + ((b0 % 4) * 16 + b1 / 16) / 16 == b0
    ensures (((b0 % 4) * 16 + b1 / 16) % 16) * 16 + ((b1 % 16) * 4 + b2 / 64) / 4 == b1
    ensures (((b1 % 16) * 4 + b2 / 64) % 4) * 64 + b2 % 64 == b2
  {
  }

  lemma SextetsOfEncodeOne(b0: Byte)
    ensures Sextets(Encode([b0])) == [b0 / 4, (b0 % 4) * 16]
  {
    var c0, c1 := CharOf(b0 / 4), CharOf((b0 % 4) * 16);
    assert Encode([b0]) == [c0] + ([c1] + "==");
    SextetsCons(c1, "==");
    SextetsCons(c0, [c1] + "==");
  }

  lemma SextetsOfEncodeTwo(b0: Byte, b1: Byte)
    ensures Sextets(Encode([b0, b1])) == [b0 / 4, (b0 % 4) * 16 + b1 / 16, (b1 % 16) * 4]
  {
    var c0, c1, c2 := CharOf(b0 / 4), CharOf((b0 % 4) * 16 + b1 / 16), CharOf((b1 % 16) * 4);
    assert Encode([b0, b1]) == [c0] + ([c1] + ([c2] + "="));
    SextetsCons(c2, "=");
    SextetsCons(c1, [c2] + "=");
    SextetsCons(c0, [c1] + ([c2] + "="));
  }

  lemma EncodeGroup(b0: Byte, b1: Byte, b2: Byte, tail: seq<Byte>)
    ensures Encode([b0, b1, b2] + tail)
         == [CharOf(b0 / 4), CharOf((b0 % 4) * 16 + b1 / 16), CharOf((b1 % 16) * 4 + b2 / 64), CharOf(b2 % 64)]
            + Encode(tail)
  {
    assert ([b0, b1, b2] + tail)[3..] == tail;
  }

  lemma SextetsOfEncodeGroup(b0: Byte, b1: Byte, b2: Byte, tail: seq<Byte>)
    ensures Sextets(Encode([b0, b1, b2] + tail))
         == [b0 / 4, (b0 % 4) * 16 + b1 / 16, (b1 % 16) * 4 + b2 / 64, b2 % 64] + Sextets(Encode(tail))
  {
    var c0, c1 := CharOf(b0 / 4), CharOf((b0 % 4) * 16 + b1 / 16);
    var c2, c3 := CharOf((b1 % 16) * 4 + b2 / 64), CharOf(b2 % 64);
    EncodeGroup(b0, b1, b2, tail);
    SextetsOfGroup(c0, c1, c2, c3, Encode(tail));
  }

  lemma BytesOfOne(b0: Byte)
    ensures BytesOf([b0 / 4, (b0 % 4) * 16]) == [b0]
  {
    ThreeBytes(b0, 0, 0);
  }

  lemma BytesOfTwo(b0: Byte, b1: Byte)
    ensures BytesOf([b0 / 4, (b0 % 4) * 16 + b1 / 16, (b1 % 16) * 4]) == [b0, b1]
  {
    ThreeBytes(b0, b1, 0);
  }

  lemma BytesOfThree(b0: Byte, b1: Byte, b2: Byte, rest: seq<Sextet>)
    ensures BytesOf([b0 / 4, (b0 % 4) * 16 + b1 / 16, (b1 % 16) * 4 + b2 / 64, b2 % 64] + rest)
         == [b0, b1, b2] + BytesOf(rest)
  {
    var q: seq<Sextet> := [b0 / 4, (b0 % 4) * 16 + b1 / 16, (b1 % 16) * 4 + b2 / 64, b2 % 64];
    assert (q + rest)[4..] == rest;
    ThreeBytes(b0, b1, b2);
  }

  lemma DecodeEncodeShort(b: seq<Byte>)
    requires |b| < 3
    ensures BytesOf(Sextets(Encode(b))) == b
  {
    if |b| == 1 {
      var b0 := b[0];
      assert b == [b0];
      SextetsOfEncodeOne(b0);
      BytesOfOne(b0);
    } else if |b| == 2 {
      var b0, b1 := b[0], b[1];
      assert b == [b0, b1];
      SextetsOfEncodeTwo(b0, b1);
      BytesOfTwo(b0, b1);
    }
  }

  /** Decoding undoes encoding: every byte comes back, in order. */
  lemma {:induction false} DecodeEncode(b: seq<Byte>)
    ensures BytesOf(Sextets(Encode(b))) == b
  {
    if |b| >= 3 {
      var b0, b1, b2 := b[0], b[1], b[2];
      var q := Sextets(Encode(b[3..]));
      assert b == [b0, b1, b2] + b[3..];
      SextetsOfEncodeGroup(b0, b1, b2, b[3..]);
      BytesOfThree(b0, b1, b2, q);
      DecodeEncode(b[3..]);
      assert b == [b0, b1, b2] + b[3..];
    } else {
      DecodeEncodeShort(b);
    }
  }

  /** The decoded text of an encoding has one character per original byte. */
  lemma DecodeOfEncode(b: seq<Byte>)
    ensures Decode(Encode(b)) == Latin1(b)
  {
    DecodeEncode(b);
  }

  /** The success marker `@6f6b` ("@ok" with its argument hex-encoded) is the decoding of `QDZmNmI=`. */
  lemma MarkerEncoding()
    ensures Encode([64, 54, 102, 54, 98]) == "QDZmNmI="
  {
    EncodeGroup(64, 54, 102, [54, 98]);
    assert [64, 54, 102] + [54, 98] == [64, 54, 102, 54, 98];
    assert Encode([54, 98]) == "NmI=";
  }

  lemma OkMarkerText()
    ensures Decode("QDZmNmI=") == "@6f6b"
  {
    var bytes: seq<Byte> := [64, 54, 102, 54, 98];
    MarkerEncoding();
    DecodeEncode(bytes);
    assert Latin1(bytes) == "@6f6b";
  }
}
