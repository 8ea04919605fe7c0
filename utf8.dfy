/** Bytes and strict UTF-8, as Rust's `str::from_utf8`, `read_to_string` and
    `String::into_bytes` see them: a byte sequence is text exactly when it
    decodes, and decoding then encoding gives back the same bytes. */
module Utf8 {
  import opened Outcomes
  import opened Text

  newtype byte = x: int | 0 <= x < 256

  type Bytes = seq<byte>

  /** The one- to four-byte encoding of a Unicode scalar value. */
  function EncodeChar(c: char): (r: Bytes)
    ensures 1 <= |r| <= 4
  {
    var n := c as int;
    if n < 0x80 then [n as byte]
    else if n < 0x800 then [(0xC0 + n / 64) as byte, (0x80 + n % 64) as byte]
    else if n < 0x10000 then
      [(0xE0 + n / 4096) as byte, (0x80 + (n / 64) % 64) as byte, (0x80 + n % 64) as byte]
    else
      [(0xF0 + n / 262144) as byte, (0x80 + (n / 4096) % 64) as byte,
       (0x80 + (n / 64) % 64) as byte, (0x80 + n % 64) as byte]
  }

  /** `String::into_bytes`. */
  function Encode(s: string): Bytes {
    if |s| == 0 then [] else EncodeChar(s[0]) + Encode(s[1..])
  }

  predicate IsContinuation(b: byte) {
    0x80 <= b < 0xC0
  }

  /** The first character of `b` and how many bytes it takes, or nothing when
      `b` does not start with a well-formed sequence (overlong forms,
      surrogates and values above U+10FFFF are ill-formed). */
  function DecodeChar(b: Bytes): (r: Option<(char, nat)>)
    requires |b| > 0
    ensures r.Some? ==> 1 <= r.value.1 <= |b|
  {
    var b0 := b[0] as int;
    if b0 < 0x80 then Some((b0 as char, 1))
    else if 0xC0 <= b0 < 0xE0 then
      if |b| >= 2 && IsContinuation(b[1]) then
        var n := (b0 - 0xC0) * 64 + (b[1] as int - 0x80);
        if n >= 0x80 then Some((n as char, 2)) else None
      else None
    else if 0xE0 <= b0 < 0xF0 then
      if |b| >= 3 && IsContinuation(b[1]) && IsContinuation(b[2]) then
        var n := (b0 - 0xE0) * 4096 + (b[1] as int - 0x80) * 64 + (b[2] as int - 0x80);
        if n >= 0x800 && !(0xD800 <= n < 0xE000) then Some((n as char, 3)) else None
      else None
    else if 0xF0 <= b0 < 0xF8 then
      if |b| >= 4 && IsContinuation(b[1]) && IsContinuation(b[2]) && IsContinuation(b[3]) then
        var n := (b0 - 0xF0) * 262144 + (b[1] as int - 0x80) * 4096
                 + (b[2] as int - 0x80) * 64 + (b[3] as int - 0x80);
        if 0x10000 <= n < 0x110000 then Some((n as char, 4)) else None
      else None
    else None
  }

  /** `str::from_utf8`: the text `b` encodes, or nothing when it is not UTF-8. */
  function Decode(b: Bytes): Option<string>
    decreases |b|
  {
    if |b| == 0 then Some([])
    else
      match DecodeChar(b)
      case None => None
      case Some((c, n)) =>
        match Decode(b[n..])
        case None => None
        case Some(s) => Some([c] + s)
  }

  predicate IsValid(b: Bytes) {
    Decode(b).Some?
  }

  lemma DecodeEncodeChar(c: char, rest: Bytes)
    ensures DecodeChar(EncodeChar(c) + rest) == Some((c, |EncodeChar(c)|))
  {
    var n := c as int;
    if n < 0x80 {
    } else if n < 0x800 {
      DecodeEncodeTwo(c, rest);
    } else if n < 0x10000 {
      DecodeEncodeThree(c, rest);
    } else {
      DecodeEncodeFour(c, rest);
    }
  }

  lemma DecodeEncodeTwo(c: char, rest: Bytes)
    requires 0x80 <= c as int < 0x800
    ensures |EncodeChar(c)| == 2 && DecodeChar(EncodeChar(c) + rest) == Some((c, 2))
  {
    var n := c as int;
    var b := EncodeChar(c) + rest;
    assert b[0] as int == 0xC0 + n / 64 && b[1] as int == 0x80 + n % 64;
    assert (n / 64) * 64 + n % 64 == n;
  }

  lemma DecodeEncodeThree(c: char, rest: Bytes)
    requires 0x800 <= c as int < 0x10000
    ensures |EncodeChar(c)| == 3 && DecodeChar(EncodeChar(c) + rest) == Some((c, 3))
  {
    var n := c as int;
    var b := EncodeChar(c) + rest;
    assert b[0] as int == 0xE0 + n / 4096;
    assert b[1] as int == 0x80 + (n / 64) % 64;
    assert b[2] as int == 0x80 + n % 64;
    DivMod64(n);
  }

  lemma DecodeEncodeFour(c: char, rest: Bytes)
    requires 0x10000 <= c as int
    ensures |EncodeChar(c)| == 4 && DecodeChar(EncodeChar(c) + rest) == Some((c, 4))
  {
    var n := c as int;
    var b := EncodeChar(c) + rest;
    assert b[0] as int == 0xF0 + n / 262144;
    assert b[1] as int == 0x80 + (n / 4096) % 64;
    assert b[2] as int == 0x80 + (n / 64) % 64;
    assert b[3] as int == 0x80 + n % 64;
    DivMod64(n);
  }

  lemma DivMod64(n: int)
    requires 0 <= n
    ensures (n / 4096) * 4096 + ((n / 64) % 64) * 64 + n % 64 == n
    ensures (n / 262144) * 262144 + ((n / 4096) % 64) * 4096 + ((n / 64) % 64) * 64 + n % 64 == n
  {
    var q := n / 64;
    assert n == q * 64 + n % 64;
    assert q == (q / 64) * 64 + q % 64;
    assert q / 64 == n / 4096;
    var q2 := n / 4096;
    assert q2 == (q2 / 64) * 64 + q2 % 64;
    assert q2 / 64 == n / 262144;
  }

  lemma Split64(a: int, x: int)
    requires 0 <= a && 0 <= x < 64
    ensures (a * 64 + x) / 64 == a && (a * 64 + x) % 64 == x
  {
  }

  lemma NestedDiv(n: int)
    requires 0 <= n
    ensures n / 4096 == (n / 64) / 64
    ensures n / 262144 == (n / 4096) / 64
  {
    var q := n / 64;
    var r := n % 64;
    assert n == q * 64 + r;
    var q2 := q / 64;
    var r2 := q % 64;
    assert n == q2 * 4096 + (r2 * 64 + r);
    assert 0 <= r2 * 64 + r < 4096;
    var q3 := n / 4096;
    var r3 := n % 4096;
    assert n == (q3 / 64) * 262144 + ((q3 % 64) * 4096 + r3);
  }

  lemma EncodeDecodeChar(b: Bytes)
    requires |b| > 0 && DecodeChar(b).Some?
    ensures EncodeChar(DecodeChar(b).value.0) == b[..DecodeChar(b).value.1]
  {
    var k := DecodeChar(b).value.1;
    if k == 2 {
      EncodeDecodeTwo(b);
    } else if k == 3 {
      EncodeDecodeThree(b);
    } else if k == 4 {
      EncodeDecodeFour(b);
    }
  }

  lemma EncodeDecodeTwo(b: Bytes)
    requires |b| > 0 && DecodeChar(b).Some? && DecodeChar(b).value.1 == 2
    ensures EncodeChar(DecodeChar(b).value.0) == b[..2]
  {
    var b0 := b[0] as int;
    var x1 := b[1] as int - 0x80;
    Split64(b0 - 0xC0, x1);
  }

  lemma EncodeDecodeThree(b: Bytes)
    requires |b| > 0 && DecodeChar(b).Some? && DecodeChar(b).value.1 == 3
    ensures EncodeChar(DecodeChar(b).value.0) == b[..3]
  {
    var n := DecodeChar(b).value.0 as int;
    var b0 := b[0] as int;
    var x1, x2 := b[1] as int - 0x80, b[2] as int - 0x80;
    var hi := (b0 - 0xE0) * 64 + x1;
    assert n == hi * 64 + x2;
    Split64(hi, x2);
    Split64(b0 - 0xE0, x1);
    NestedDiv(n);
  }

  lemma EncodeDecodeFour(b: Bytes)
    requires |b| > 0 && DecodeChar(b).Some? && DecodeChar(b).value.1 == 4
    ensures EncodeChar(DecodeChar(b).value.0) == b[..4]
  {
    var n := DecodeChar(b).value.0 as int;
    var b0 := b[0] as int;
    var x1, x2, x3 := b[1] as int - 0x80, b[2] as int - 0x80, b[3] as int - 0x80;
    var hi1 := (b0 - 0xF0) * 64 + x1;
    var hi2 := hi1 * 64 + x2;
    assert n == hi2 * 64 + x3;
    Split64(hi2, x3);
    Split64(hi1, x2);
    Split64(b0 - 0xF0, x1);
    NestedDiv(n);
  }

  /** Every string is valid text once encoded, and decodes to itself. */
  lemma {:induction false} DecodeEncode(s: string)
    ensures Decode(Encode(s)) == Some(s)
  {
    if |s| > 0 {
      var e := EncodeChar(s[0]);
      var rest := Encode(s[1..]);
      DecodeEncodeChar(s[0], rest);
      DecodeEncode(s[1..]);
      assert (e + rest)[|e|..] == rest;
      assert s == [s[0]] + s[1..];
    }
  }

  /** Valid text survives a decode and re-encode byte for byte. */
  lemma {:induction false} EncodeDecode(b: Bytes)
    requires IsValid(b)
    ensures Encode(Decode(b).value) == b
    decreases |b|
  {
    if |b| > 0 {
      var (c, k) := DecodeChar(b).value;
      var t := Decode(b[k..]).value;
      assert Decode(b).value == [c] + t;
      EncodeDecode(b[k..]);
      EncodeCons(c, t);
      EncodeDecodeChar(b);
      TakeDrop(b, k);
    }
  }

  lemma EncodeCons(c: char, t: string)
    ensures Encode([c] + t) == EncodeChar(c) + Encode(t)
  {
    assert ([c] + t)[1..] == t;
  }
}
