/** The binary frame every SRTSP message travels in: a six-byte header (version, message type,
    big-endian body length) followed by the body and, for messages 2 to 4, the integrity tag. */
module Frame {
  import opened Wrappers
  import opened JavaInt

  /** `HEADERSIZE`: one byte of version, one of message type, four of length. */
  const HeaderSize: nat := 6
  const Version: Byte := 3
  const Message1: Byte := 1
  const Message2: Byte := 2
  const Message3: Byte := 3
  const Message4: Byte := 4

  /** `ByteBuffer.allocate(HEADERSIZE + |body| + |tag|)` gets a non-negative size: the Java `int`
      sum does not overflow. */
  predicate Fits(body: Bytes, tag: Bytes) {
    HeaderSize + |body| + |tag| <= MaxInt
  }

  /** The `allocate(..).put(VERSION).put(kind).putInt(|body|).put(body).put(tag)` chain of the
      encoders; `None` when the size overflows and `allocate` throws. Message 1 passes an empty tag. */
  function Encode(kind: Byte, body: Bytes, tag: Bytes): (r: Option<Bytes>)
    ensures r.Some? <==> Fits(body, tag)
    ensures r.Some? ==>
      && |r.value| == HeaderSize + |body| + |tag|
      && r.value[0] == Version && r.value[1] == kind
      && FromBigEndian(r.value[2..HeaderSize]) == |body|
      && r.value[HeaderSize..HeaderSize + |body|] == body
      && r.value[HeaderSize + |body|..] == tag
  {
    if Fits(body, tag) then
      var r := [Version, kind] + BigEndian(|body|) + body + tag;
      BigEndianRoundTrip(|body|);
      assert r[2..HeaderSize] == BigEndian(|body|);
      Some(r)
    else None
  }

  /** The reading steps shared by the decoders: `get()` version and type, `getInt()` the declared
      length, `get` that many body bytes, and take every byte left as the tag. `None` when the
      version or type is wrong, when the buffer underflows, or when the declared length is negative
      (`NegativeArraySizeException`). */
  function Decode(kind: Byte, data: Bytes): (r: Option<(Bytes, Bytes)>)
    ensures r.Some? ==>
      && |data| == HeaderSize + |r.value.0| + |r.value.1|
      && data[0] == Version && data[1] == kind
  {
    if |data| < HeaderSize || data[0] != Version || data[1] != kind then None
    else
      var declared := FromBigEndian(data[2..HeaderSize]);
      if declared < 0 || |data| - HeaderSize < declared then None
      else
        Some((data[HeaderSize..HeaderSize + declared], data[HeaderSize + declared..]))
  }

  /** Decoding inverts encoding, and a buffer (a Java array, so at most `MaxInt` long) decodes to
      a body and tag exactly when it is their encoding. */
  lemma DecodeEncode(kind: Byte, body: Bytes, tag: Bytes, data: Bytes)
    requires |data| <= MaxInt
    ensures Decode(kind, data) == Some((body, tag)) <==> Encode(kind, body, tag) == Some(data)
  {
    if Encode(kind, body, tag) == Some(data) {
      assert data[2..HeaderSize] == BigEndian(|body|);
      BigEndianRoundTrip(|body|);
    }
    if Decode(kind, data) == Some((body, tag)) {
      FromBigEndianRoundTrip(data[2..HeaderSize]);
      assert data == [data[0], data[1]] + data[2..HeaderSize] + body + tag;
    }
  }

  /** Each decoder rejects a wrong version byte, a wrong message type, and a buffer shorter than
      the header plus the declared body. */
  lemma DecodeRejects(kind: Byte, data: Bytes)
    requires
      || |data| < HeaderSize
      || data[0] != Version
      || data[1] != kind
      || FromBigEndian(data[2..HeaderSize]) < 0
      || |data| < HeaderSize + FromBigEndian(data[2..HeaderSize])
    ensures Decode(kind, data) == None
  {
  }

  /** Bytes after a well-formed frame become part of its tag; the body is unaffected, which is why
      message 1, which has no tag, ignores trailing bytes. */
  lemma TrailingBytes(kind: Byte, body: Bytes, tag: Bytes, extra: Bytes)
    requires Fits(body, tag + extra)
    ensures Encode(kind, body, tag).Some?
    ensures Decode(kind, Encode(kind, body, tag).value + extra) == Some((body, tag + extra))
  {
    var data := Encode(kind, body, tag).value;
    assert data + extra == Encode(kind, body, tag + extra).value;
    DecodeEncode(kind, body, tag + extra, data + extra);
  }
}
