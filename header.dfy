/** Extraction of the message-type field from the fixed 7-byte header
    (magic, message type, CRC-16, payload length). */
module Header {
  import opened Messages

  newtype byte = x: int | 0 <= x < 256

  /** Length of the slice `packet[:7]` handed to struct.unpack. */
  const HeaderLength: nat := 7

  datatype HeaderFields = HeaderFields(magic: int, msgType: int, crc16: int, packetLen: int)

  /** A struct format string: the number of bytes it consumes (calcsize) and
      the field decoding it performs. Field order and byte order are left
      abstract. */
  datatype HeaderFormat = HeaderFormat(size: nat, decode: seq<byte> -> HeaderFields)

  /** Python's `packet[:7]`: at most the first seven bytes. */
  function Prefix(packet: seq<byte>): (p: seq<byte>)
    ensures |p| <= HeaderLength && p <= packet
    ensures |packet| >= HeaderLength ==> |p| == HeaderLength
    ensures |packet| < HeaderLength ==> p == packet
  {
    if |packet| <= HeaderLength then packet else packet[..HeaderLength]
  }

  /** `unpack_msg_type`: struct.unpack raises unless the slice has exactly the
      format's size; otherwise the message-type field is returned. */
  function UnpackMsgType(packet: seq<byte>, fmt: HeaderFormat): (r: Option<int>)
    ensures r.Some? <==> |Prefix(packet)| == fmt.size
  {
    var head := Prefix(packet);
    if |head| == fmt.size then Some(fmt.decode(head).msgType) else None
  }

  /** The header formats the middleware uses consume exactly seven bytes. */
  predicate SevenByteFormat(fmt: HeaderFormat)
  {
    fmt.size == HeaderLength
  }

  /** Bytes after index 6 never affect the result. */
  lemma UnpackIgnoresPayload(packet: seq<byte>, payload: seq<byte>, fmt: HeaderFormat)
    requires |packet| >= HeaderLength
    ensures UnpackMsgType(packet + payload, fmt) == UnpackMsgType(packet, fmt)
  {
    assert Prefix(packet + payload) == Prefix(packet);
  }

  /** Two packets that share their first seven bytes have the same type. */
  lemma UnpackDependsOnlyOnHeader(p: seq<byte>, q: seq<byte>, fmt: HeaderFormat)
    requires |p| >= HeaderLength && |q| >= HeaderLength
    requires p[..HeaderLength] == q[..HeaderLength]
    ensures UnpackMsgType(p, fmt) == UnpackMsgType(q, fmt)
  {
    assert Prefix(p) == p[..HeaderLength];
    assert Prefix(q) == q[..HeaderLength];
  }

  /** With a seven-byte format, a packet fails exactly when it is shorter than
      the header, and never yields a partial header. */
  lemma ShortPacketFails(packet: seq<byte>, fmt: HeaderFormat)
    requires SevenByteFormat(fmt)
    ensures UnpackMsgType(packet, fmt).None? <==> |packet| < HeaderLength
    ensures |packet| >= HeaderLength ==>
      UnpackMsgType(packet, fmt) == Some(fmt.decode(packet[..HeaderLength]).msgType)
  {
    if |packet| >= HeaderLength {
      assert Prefix(packet) == packet[..HeaderLength];
    }
  }
}
