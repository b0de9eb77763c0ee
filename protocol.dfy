/** The status/result protocol shared by every query: never look at the
    payload unless the status is 0; map a non-zero status through
    `RocmErr::from_u16`; copy a string payload up to its NUL terminator and
    accept it only if it is valid UTF-8. */
module Protocol {
  import opened Ints
  import opened Error
  import opened Bindings
  import Utf8

  /** `check_res(status)`: a non-zero status becomes the mapped error. */
  function CheckRes(fromU16: u16 -> RocmErr, status: u16): (c: Checked)
    ensures c.Pass? <==> status == 0
    ensures c.Fail? ==> c.error == fromU16(status)
  {
    if status == 0 then Pass else Fail(fromU16(status))
  }

  /** What a scalar query promises about its result `r` for the reply of the
      foreign call: `Ok` exactly on status 0, and then the payload itself;
      otherwise the mapped status. */
  ghost predicate ScalarProtocol<T>(fromU16: u16 -> RocmErr, reply: Reply<T>, r: Result<T>)
  {
    && (r.Ok? <==> reply.status == 0)
    && (r.Ok? ==> r.value == reply.data)
    && (r.Err? ==> r.error == fromU16(reply.status))
  }

  /** Decodes a scalar reply. */
  function DecodeScalar<T>(fromU16: u16 -> RocmErr, reply: Reply<T>): (r: Result<T>)
    ensures ScalarProtocol(fromU16, reply, r)
  {
    if reply.status != 0 then Err(fromU16(reply.status)) else Ok(reply.data)
  }

  /** `CStr::from_ptr`: the bytes before the first NUL of the region. */
  function CStrBytes(m: CString): (bs: seq<u8>)
    ensures |bs| < |m| && m[|bs|] == 0
    ensures bs == m[..|bs|]
    ensures forall i :: 0 <= i < |bs| ==> bs[i] != 0
    decreases |m|
  {
    if m[0] == 0 then []
    else
      assert 0 in m[1..] by {
        var k :| 0 <= k < |m| && m[k] == 0;
        assert m[1..][k - 1] == 0;
      }
      [m[0]] + CStrBytes(m[1..])
  }

  /** What a string query promises about its result `r` for the reply of the
      foreign call: a non-zero status gives the mapped error and the payload
      is not looked at; on status 0 the result is `Ok` exactly when the bytes
      before the terminator are the UTF-8 encoding of some text, and then it
      is that text; otherwise it is `RsmiStatusUnknownError`. */
  ghost predicate StringProtocol(fromU16: u16 -> RocmErr, reply: Reply<CString>, r: Result<string>)
  {
    && (reply.status != 0 ==> r == Err(fromU16(reply.status)))
    && (reply.status == 0 ==>
          && (r.Ok? <==> exists s: string :: Utf8.Encode(s) == CStrBytes(reply.data))
          && (r.Ok? ==> Utf8.Encode(r.value) == CStrBytes(reply.data))
          && (r.Err? ==> r.error == RsmiStatusUnknownError))
  }

  /** Decodes a string reply. */
  function DecodeString(fromU16: u16 -> RocmErr, reply: Reply<CString>): (r: Result<string>)
    ensures StringProtocol(fromU16, reply, r)
  {
    if reply.status != 0 then Err(fromU16(reply.status))
    else
      var bytes := CStrBytes(reply.data);
      Utf8.DecodeNoneIff(bytes);
      match Utf8.Decode(bytes)
      case Some(text) =>
        Utf8.EncodeDecode(bytes);
        Ok(text)
      case None => Err(RsmiStatusUnknownError)
  }

  /** The terminator scan stops at the first NUL: whatever follows it is
      never part of the text. */
  lemma CStrBytesOfTerminated(bs: seq<u8>, tail: seq<u8>)
    requires forall i :: 0 <= i < |bs| ==> bs[i] != 0
    ensures CStrBytes(bs + [0] + tail) == bs
  {
    var m: CString := bs + [0] + tail;
    var r := CStrBytes(m);
    assert forall i :: 0 <= i < |bs| ==> m[i] != 0;
    assert forall i :: 0 <= i < |r| ==> m[i] != 0;
    assert m[|bs|] == 0 && m[|r|] == 0;
    assert m[..|bs|] == bs;
  }

  /** The NUL character is the only one whose encoding holds a 0 byte. */
  lemma {:induction false} EncodeHasNoNul(text: string)
    requires forall i :: 0 <= i < |text| ==> text[i] != 0 as char
    ensures forall i :: 0 <= i < |Utf8.Encode(text)| ==> Utf8.Encode(text)[i] != 0
    decreases |text|
  {
    if text != [] {
      EncodeHasNoNul(text[1..]);
      var head := Utf8.EncodeChar(text[0]);
      assert forall i :: 0 <= i < |head| ==> head[i] != 0;
    }
  }

  /** A text that has a NUL character has a 0 byte in its encoding. */
  lemma {:induction false} NulEncodesToZero(text: string, k: nat)
    requires k < |text| && text[k] == 0 as char
    ensures exists i :: 0 <= i < |Utf8.Encode(text)| && Utf8.Encode(text)[i] == 0
    decreases k
  {
    if k == 0 {
      assert Utf8.Encode(text)[0] == 0;
    } else {
      NulEncodesToZero(text[1..], k - 1);
      var i :| 0 <= i < |Utf8.Encode(text[1..])| && Utf8.Encode(text[1..])[i] == 0;
      var head := Utf8.EncodeChar(text[0]);
      assert Utf8.Encode(text)[|head| + i] == 0;
    }
  }

  /** Round trip through the foreign layer: a text without NUL characters,
      handed over as its UTF-8 bytes followed by a terminator (and anything
      after it), comes back exactly. */
  lemma StringRoundTrip(fromU16: u16 -> RocmErr, text: string, tail: seq<u8>)
    requires forall i :: 0 <= i < |text| ==> text[i] != 0 as char
    ensures DecodeString(fromU16, Reply(0, Utf8.Encode(text) + [0] + tail)) == Ok(text)
  {
    EncodeHasNoNul(text);
    CStrBytesOfTerminated(Utf8.Encode(text), tail);
    Utf8.DecodeEncode(text);
  }

  /** A decoded text never contains a NUL character, and its encoding
      followed by a terminator is how the foreign region starts. */
  lemma StringResultShape(fromU16: u16 -> RocmErr, reply: Reply<CString>)
    requires DecodeString(fromU16, reply).Ok?
    ensures var text := DecodeString(fromU16, reply).value;
      && (forall i :: 0 <= i < |text| ==> text[i] != 0 as char)
      && Utf8.Encode(text) + [0] == reply.data[..|Utf8.Encode(text)| + 1]
  {
    var text := DecodeString(fromU16, reply).value;
    var bytes := CStrBytes(reply.data);
    assert Utf8.Encode(text) == bytes;
    forall k | 0 <= k < |text| ensures text[k] != 0 as char {
      if text[k] == 0 as char {
        NulEncodesToZero(text, k);
      }
    }
    assert reply.data[..|bytes| + 1] == reply.data[..|bytes|] + [reply.data[|bytes|]];
  }

  /** A non-zero status decides the result on its own: the payload is never
      read, for scalar and string replies alike. */
  lemma PayloadIgnoredOnFailure<T>(fromU16: u16 -> RocmErr, status: u16, d1: T, d2: T, m1: CString, m2: CString)
    requires status != 0
    ensures DecodeScalar(fromU16, Reply(status, d1)) == DecodeScalar(fromU16, Reply(status, d2)) == Err(fromU16(status))
    ensures DecodeString(fromU16, Reply(status, m1)) == DecodeString(fromU16, Reply(status, m2)) == Err(fromU16(status))
  {
  }

  /** The device name "MI250X", NUL-terminated, decodes to exactly that name. */
  lemma NameExample(fromU16: u16 -> RocmErr, reply: Reply<CString>)
    requires reply.status == 0 && reply.data == [0x4D, 0x49, 0x32, 0x35, 0x30, 0x58, 0]
    ensures DecodeString(fromU16, reply) == Ok("MI250X")
  {
    var bytes: seq<u8> := [0x4D, 0x49, 0x32, 0x35, 0x30, 0x58];
    assert reply.data == bytes + [0] + [];
    CStrBytesOfTerminated(bytes, []);
    Utf8.DecodeAscii(bytes);
    assert Utf8.Decode(bytes).value == "MI250X";
  }

  /** A payload that is not UTF-8 (a lone 0xFF byte) is reported as
      `RsmiStatusUnknownError`, not returned. */
  lemma InvalidTextExample(fromU16: u16 -> RocmErr, reply: Reply<CString>)
    requires reply.status == 0 && reply.data == [0xFF, 0]
    ensures DecodeString(fromU16, reply) == Err(RsmiStatusUnknownError)
  {
    assert CStrBytes([0xFF, 0]) == [0xFF] by { CStrBytesOfTerminated([0xFF], []); }
  }
}
