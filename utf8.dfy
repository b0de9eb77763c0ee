/** UTF-8, as Rust's `CStr::to_str` (that is, `str::from_utf8`) checks it:
    the strict encoding of RFC 3629, section 3 and 4, which rejects overlong
    forms, surrogate code points (U+D800..U+DFFF), code points above
    U+10FFFF and truncated sequences. `char` here is a Unicode scalar value. */
module Utf8 {
  import opened Ints
  import opened Error

  /** A continuation byte `10xxxxxx`. */
  predicate IsCont(b: u8) { 0x80 <= b <= 0xBF }

  /** The encoding of one scalar value: one to four bytes. */
  function EncodeChar(c: char): (bs: seq<u8>)
    ensures 1 <= |bs| <= 4
  {
    var cp := c as int;
    if cp < 0x80 then
      [cp as u8]
    else if cp < 0x800 then
      [(0xC0 + cp / 64) as u8, (0x80 + cp % 64) as u8]
    else if cp < 0x1_0000 then
      [(0xE0 + cp / 64 / 64) as u8, (0x80 + cp / 64 % 64) as u8, (0x80 + cp % 64) as u8]
    else
      [(0xF0 + cp / 64 / 64 / 64) as u8, (0x80 + cp / 64 / 64 % 64) as u8,
       (0x80 + cp / 64 % 64) as u8, (0x80 + cp % 64) as u8]
  }

  /** The encoding of a string: the encodings of its characters in order. */
  function Encode(s: string): (bs: seq<u8>)
    ensures |s| <= |bs| <= 4 * |s|
  {
    if s == [] then [] else EncodeChar(s[0]) + Encode(s[1..])
  }

  /** The scalar value with the given code point (one that is known to be a
      scalar value). */
  function ScalarOf(cp: int): char
    requires 0 <= cp < 0xD800 || 0xE000 <= cp < 0x11_0000
  {
    cp as char
  }

  /** Decodes the first character of `bs`: the character and the number of
      bytes it occupies, or `None` if `bs` does not start with a well-formed
      sequence. */
  function DecodeFirst(bs: seq<u8>): (r: Option<(char, nat)>)
    requires |bs| > 0
    ensures r.Some? ==> 1 <= r.value.1 <= |bs| && r.value.1 <= 4
  {
    var b0 := bs[0] as int;
    if b0 < 0x80 then
      Some((ScalarOf(b0), 1))
    else if 0xC2 <= b0 <= 0xDF then
      if |bs| >= 2 && IsCont(bs[1]) then
        Some((ScalarOf((b0 - 0xC0) * 64 + (bs[1] as int - 0x80)), 2))
      else None
    else if 0xE0 <= b0 <= 0xEF then
      var lo := if b0 == 0xE0 then 0xA0 else 0x80;
      var hi := if b0 == 0xED then 0x9F else 0xBF;
      if |bs| >= 3 && lo <= bs[1] as int <= hi && IsCont(bs[2]) then
        Some((ScalarOf(((b0 - 0xE0) * 64 + (bs[1] as int - 0x80)) * 64 + (bs[2] as int - 0x80)), 3))
      else None
    else if 0xF0 <= b0 <= 0xF4 then
      var lo := if b0 == 0xF0 then 0x90 else 0x80;
      var hi := if b0 == 0xF4 then 0x8F else 0xBF;
      if |bs| >= 4 && lo <= bs[1] as int <= hi && IsCont(bs[2]) && IsCont(bs[3]) then
        Some((ScalarOf((((b0 - 0xF0) * 64 + (bs[1] as int - 0x80)) * 64 + (bs[2] as int - 0x80)) * 64
                       + (bs[3] as int - 0x80)), 4))
      else None
    else
      None
  }

  /** Decodes a whole byte sequence, or `None` if it is not valid UTF-8. */
  function Decode(bs: seq<u8>): (r: Option<string>)
    ensures r.Some? ==> |r.value| <= |bs| <= 4 * |r.value|
    decreases |bs|
  {
    if bs == [] then Some([])
    else match DecodeFirst(bs)
      case None => None
      case Some((c, k)) =>
        match Decode(bs[k..])
        case None => None
        case Some(rest) => Some([c] + rest)
  }

  lemma DivMod64(q: int, r: int)
    requires 0 <= r < 64
    ensures (q * 64 + r) / 64 == q && (q * 64 + r) % 64 == r
  {
  }

  /** Decoding the encoding of `c` yields `c` again and consumes exactly its
      bytes, whatever follows them. */
  lemma DecodeFirstOfEncodeChar(c: char, rest: seq<u8>)
    ensures DecodeFirst(EncodeChar(c) + rest) == Some((c, |EncodeChar(c)|))
  {
    var cp := c as int;
    var bs := EncodeChar(c) + rest;
    if cp < 0x80 {
    } else if cp < 0x800 {
      assert bs[0] as int - 0xC0 == cp / 64;
      assert (cp / 64) * 64 + cp % 64 == cp;
    } else if cp < 0x1_0000 {
      var q1, r0 := cp / 64, cp % 64;
      var q2, r1 := q1 / 64, q1 % 64;
      assert cp == (q2 * 64 + r1) * 64 + r0;
      assert bs[0] as int == 0xE0 + q2 && bs[1] as int == 0x80 + r1 && bs[2] as int == 0x80 + r0;
    } else {
      var q1, r0 := cp / 64, cp % 64;
      var q2, r1 := q1 / 64, q1 % 64;
      var q3, r2 := q2 / 64, q2 % 64;
      assert cp == ((q3 * 64 + r2) * 64 + r1) * 64 + r0;
      assert bs[0] as int == 0xF0 + q3 && bs[1] as int == 0x80 + r2;
      assert bs[2] as int == 0x80 + r1 && bs[3] as int == 0x80 + r0;
    }
  }

  /** A well-formed first sequence is exactly the encoding of the character
      it decodes to. */
  lemma EncodeCharOfDecodeFirst(bs: seq<u8>)
    requires |bs| > 0 && DecodeFirst(bs).Some?
    ensures EncodeChar(DecodeFirst(bs).value.0) == bs[..DecodeFirst(bs).value.1]
  {
    var b0 := bs[0] as int;
    var (c, k) := DecodeFirst(bs).value;
    var cp := c as int;
    if b0 < 0x80 {
    } else if b0 <= 0xDF {
      DivMod64(b0 - 0xC0, bs[1] as int - 0x80);
    } else if b0 <= 0xEF {
      var q1 := (b0 - 0xE0) * 64 + (bs[1] as int - 0x80);
      DivMod64(q1, bs[2] as int - 0x80);
      DivMod64(b0 - 0xE0, bs[1] as int - 0x80);
      assert cp / 64 == q1;
    } else {
      var q2 := (b0 - 0xF0) * 64 + (bs[1] as int - 0x80);
      var q1 := q2 * 64 + (bs[2] as int - 0x80);
      DivMod64(q1, bs[3] as int - 0x80);
      DivMod64(q2, bs[2] as int - 0x80);
      DivMod64(b0 - 0xF0, bs[1] as int - 0x80);
      assert cp / 64 == q1 && cp / 64 / 64 == q2;
    }
  }

  /** Round trip: every string is recovered from its encoding. */
  lemma {:induction false} DecodeEncode(s: string)
    ensures Decode(Encode(s)) == Some(s)
    decreases |s|
  {
    if s != [] {
      var bs := Encode(s);
      DecodeFirstOfEncodeChar(s[0], Encode(s[1..]));
      var k := |EncodeChar(s[0])|;
      assert bs[k..] == Encode(s[1..]);
      DecodeEncode(s[1..]);
      assert [s[0]] + s[1..] == s;
    }
  }

  /** Round trip: a byte sequence that decodes is the encoding of what it
      decodes to. */
  lemma {:induction false} EncodeDecode(bs: seq<u8>)
    requires Decode(bs).Some?
    ensures Encode(Decode(bs).value) == bs
    decreases |bs|
  {
    if bs != [] {
      var (c, k) := DecodeFirst(bs).value;
      EncodeCharOfDecodeFirst(bs);
      EncodeDecode(bs[k..]);
      var s := Decode(bs).value;
      assert s[0] == c && s[1..] == Decode(bs[k..]).value;
      assert bs[..k] + bs[k..] == bs;
    }
  }

  /** `Decode` succeeds exactly on the encodings of strings, and then
      returns the encoded string. */
  lemma DecodeIff(bs: seq<u8>, s: string)
    ensures Decode(bs) == Some(s) <==> Encode(s) == bs
  {
    if Decode(bs) == Some(s) {
      EncodeDecode(bs);
    }
    if Encode(s) == bs {
      DecodeEncode(s);
    }
  }

  /** Decoding fails exactly when no string encodes to `bs`. */
  lemma DecodeNoneIff(bs: seq<u8>)
    ensures Decode(bs).None? <==> forall s: string :: Encode(s) != bs
  {
    if Decode(bs).Some? {
      EncodeDecode(bs);
    } else {
      forall s: string ensures Encode(s) != bs {
        DecodeIff(bs, s);
      }
    }
  }

  /** ASCII bytes decode one to one into the characters with the same code. */
  lemma {:induction false} DecodeAscii(bs: seq<u8>)
    requires forall i :: 0 <= i < |bs| ==> bs[i] < 0x80
    ensures Decode(bs).Some? && |Decode(bs).value| == |bs|
    ensures forall i :: 0 <= i < |bs| ==> Decode(bs).value[i] as int == bs[i] as int
    decreases |bs|
  {
    if bs != [] {
      DecodeAscii(bs[1..]);
      assert DecodeFirst(bs) == Some((bs[0] as int as char, 1));
    }
  }

  /** Multi-byte encodings with their bytes written out: U+00E9, the euro
      sign U+20AC and U+1F600, whose encoding has four bytes. */
  lemma MultiByteExamples()
    ensures EncodeChar('\U{E9}') == [0xC3, 0xA9]
    ensures EncodeChar('\U{20AC}') == [0xE2, 0x82, 0xAC]
    ensures EncodeChar('\U{1F600}') == [0xF0, 0x9F, 0x98, 0x80]
    ensures Decode([0xE2, 0x82, 0xAC]) == Some("\U{20AC}")
  {
    DecodeEncode("\U{20AC}");
    assert Encode("\U{20AC}") == EncodeChar('\U{20AC}');
  }

  /** Sequences the strict decoder rejects: an overlong NUL, an encoded
      surrogate U+D800, a code point above U+10FFFF, a truncated sequence
      and a stray continuation byte. */
  lemma RejectionExamples()
    ensures Decode([0xC0, 0x80]).None?
    ensures Decode([0xED, 0xA0, 0x80]).None?
    ensures Decode([0xF4, 0x90, 0x80, 0x80]).None?
    ensures Decode([0xE2, 0x82]).None?
    ensures Decode([0x80]).None?
  {
  }
}
