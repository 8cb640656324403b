/** Partial sends and receives (TcpConnection) and the packet reader and writer above them. */
module PacketIO {
  import opened Results
  import opened Bytes
  import opened Packets

  datatype WireError = NotConnected | SendFailed | ReceiveFailed | BadPacket

  const INT_MAX: nat := 0x7FFF_FFFF

  /** One end of a connection.  The network delivers inbox in order, in pieces of any size. */
  class TcpConnection {
    var valid: bool
    /** Bytes of the peer that have not been received yet. */
    var inbox: seq<byte>
    /** Bytes handed to the network so far. */
    var outbox: seq<byte>
    /** No send fails, and a receive fails only at the end of the stream. */
    const reliable: bool

    constructor (inbox: seq<byte>, reliable: bool)
      ensures valid && this.inbox == inbox && outbox == [] && this.reliable == reliable
    {
      this.valid := true;
      this.inbox := inbox;
      this.outbox := [];
      this.reliable := reliable;
    }

    /** send(2): takes any positive number of the bytes, or fails with a number that is not positive. */
    method Send(bytes: seq<byte>) returns (sent: int)
      requires bytes != []
      modifies this`outbox
      ensures sent <= |bytes|
      ensures outbox == if sent > 0 then old(outbox) + bytes[..sent] else old(outbox)
      ensures reliable ==> sent > 0
    {
      assert |bytes| > 0;
      sent :| -1 <= sent <= |bytes| && (reliable ==> sent > 0);
      if sent > 0 {
        outbox := outbox + bytes[..sent];
      }
    }

    /** recv(2): returns any positive number of bytes; nothing stands for failure or an orderly close. */
    method Recv(limit: nat) returns (chunk: seq<byte>)
      requires limit > 0
      modifies this`inbox
      ensures |chunk| <= limit && old(inbox) == chunk + inbox
      ensures reliable && old(inbox) != [] ==> chunk != []
    {
      var most := if |inbox| < limit then |inbox| else limit;
      var n: nat;
      n :| n <= most && (reliable && inbox != [] ==> n > 0);
      chunk := inbox[..n];
      inbox := inbox[n..];
    }

    method WriteAll(bytes: seq<byte>) returns (error: Option<WireError>)
      modifies this`outbox
      ensures error == None ==> outbox == old(outbox) + bytes
      ensures error.Some? ==> exists k :: 0 <= k <= |bytes| && outbox == old(outbox) + bytes[..k]
      ensures valid && reliable ==> error == None
    {
      if !valid {
        assert outbox == old(outbox) + bytes[..0];
        return Some(NotConnected);
      }
      var sentTotal := 0;
      while sentTotal < |bytes|
        invariant sentTotal <= |bytes|
        invariant outbox == old(outbox) + bytes[..sentTotal]
      {
        var remaining := |bytes| - sentTotal;
        var chunkSize := if remaining > INT_MAX then INT_MAX else remaining;
        var chunk := bytes[sentTotal..sentTotal + chunkSize];
        var sent := Send(chunk);
        if sent <= 0 {
          return Some(SendFailed);
        }
        assert bytes[..sentTotal + sent] == bytes[..sentTotal] + chunk[..sent];
        sentTotal := sentTotal + sent;
      }
      assert bytes[..sentTotal] == bytes;
      return None;
    }

    method ReadExact(size: nat) returns (r: Result<seq<byte>, WireError>)
      modifies this`inbox
      ensures r.Ok? ==> |r.value| == size && old(inbox) == r.value + inbox
      ensures r.Err? ==> exists k :: 0 <= k <= |old(inbox)| && inbox == old(inbox)[k..]
      ensures valid && reliable && size <= |old(inbox)| ==> r.Ok?
    {
      if !valid {
        assert inbox == old(inbox)[0..];
        return Err(NotConnected);
      }
      var bytes := [];
      while |bytes| < size
        invariant |bytes| <= size
        invariant old(inbox) == bytes + inbox
      {
        var remaining := size - |bytes|;
        var chunkSize := if remaining > INT_MAX then INT_MAX else remaining;
        var chunk := Recv(chunkSize);
        if chunk == [] {
          assert inbox == old(inbox)[|bytes|..];
          return Err(ReceiveFailed);
        }
        bytes := bytes + chunk;
      }
      return Ok(bytes);
    }
  }

  method WritePacket(connection: TcpConnection, packet: Packet) returns (error: Option<WireError>)
    modifies connection`outbox
    ensures error == None ==> connection.outbox == old(connection.outbox) + Encode(packet)
    ensures error.Some? ==>
              exists k :: 0 <= k <= |Encode(packet)| && connection.outbox == old(connection.outbox) + Encode(packet)[..k]
    ensures connection.valid && connection.reliable ==> error == None
  {
    var bytes := Serialize(packet);
    error := connection.WriteAll(bytes);
  }

  /** Reads the header, then as many payload bytes as it announces.  On a reliable connection the call
      succeeds exactly when a whole well-formed packet is in front, and takes exactly that packet. */
  method ReadPacket(connection: TcpConnection) returns (r: Result<Packet, WireError>)
    modifies connection`inbox
    ensures r.Ok? && |old(connection.inbox)| < U64_SIZE ==>
              WellFormed(r.value) && old(connection.inbox) == Encode(r.value) + connection.inbox
    ensures connection.valid && connection.reliable && |old(connection.inbox)| < U64_SIZE ==>
              forall p, rest :: WellFormed(p) && old(connection.inbox) == Encode(p) + rest
                           ==> r == Ok(p) && connection.inbox == rest
    ensures exists k :: 0 <= k <= |old(connection.inbox)| && connection.inbox == old(connection.inbox)[k..]
  {
    hide Encode;
    hide Decode;
    hide FromBigEndian;
    hide FrameSize;
    ghost var stream := connection.inbox;
    forall p, rest | WellFormed(p) && stream == Encode(p) + rest
      ensures FrameSize(stream) == Some(|Encode(p)|) && Decode(stream[..|Encode(p)|]) == Ok(p)
      ensures rest == stream[|Encode(p)|..]
    {
      FrameAtFront(p, rest, |stream|);
      assert (Encode(p) + rest)[..|stream|] == stream;
      assert stream[..|Encode(p)|] == Encode(p);
      DecodeEncode(p);
    }
    FrameSizeIs(stream);
    var header := connection.ReadExact(ENCODED_SIZE);
    if header.Err? {
      return Err(header.error);
    }
    var bytes := header.value;
    assert stream[12..20] == bytes[12..20];
    ghost var mid := connection.inbox;
    assert mid == stream[ENCODED_SIZE..];
    var payloadLength: nat := 0;
    NoBytes();
    assert bytes[12..12] == [];
    for i := 0 to 8
      invariant payloadLength == FromBigEndian(bytes[12..12 + i]) && connection.inbox == mid
    {
      Accumulate(bytes, 12, i);
      payloadLength := payloadLength * 256 + bytes[12 + i];
    }
    if payloadLength > 0 {
      var payload := connection.ReadExact(payloadLength);
      if payload.Err? {
        ghost var k :| 0 <= k <= |mid| && connection.inbox == mid[k..];
        assert connection.inbox == stream[ENCODED_SIZE + k..];
        return Err(payload.error);
      }
      bytes := bytes + payload.value;
    }
    assert stream == bytes + connection.inbox;
    assert stream[..|bytes|] == bytes && connection.inbox == stream[|bytes|..];
    var parsed := Parse(bytes);
    if parsed.Err? {
      return Err(BadPacket);
    }
    if |stream| < U64_SIZE {
      EncodeDecode(bytes);
    }
    return Ok(parsed.value);
  }

  lemma NoBytes()
    ensures FromBigEndian([]) == 0
  {
  }

  lemma Accumulate(bytes: seq<byte>, from: nat, i: nat)
    requires from + i < |bytes|
    ensures FromBigEndian(bytes[from..from + i + 1]) == FromBigEndian(bytes[from..from + i]) * 256 + bytes[from + i]
  {
    assert bytes[from..from + i + 1][..i] == bytes[from..from + i];
  }

  lemma FrameSizeIs(stream: seq<byte>)
    ensures FrameSize(stream).Some? ==>
              ENCODED_SIZE <= |stream| && FrameSize(stream).value == ENCODED_SIZE + FromBigEndian(stream[12..20]) <= |stream|
  {
  }

  /** write_packet for each packet in turn, up to the first that fails. */
  method WritePackets(connection: TcpConnection, packets: seq<Packet>) returns (error: Option<WireError>)
    modifies connection`outbox
    ensures error == None ==> connection.outbox == old(connection.outbox) + WireOf(packets)
    ensures error.Some? ==>
              exists k :: 0 <= k <= |WireOf(packets)| && connection.outbox == old(connection.outbox) + WireOf(packets)[..k]
    ensures connection.valid && connection.reliable ==> error == None
  {
    hide Encode;
    hide WireOf;
    Written(packets, 0);
    assert connection.outbox + [] == connection.outbox;
    for i := 0 to |packets|
      invariant connection.outbox == old(connection.outbox) + WireOf(packets[..i])
    {
      ghost var before := connection.outbox;
      Written(packets, i);
      error := WritePacket(connection, packets[i]);
      if error.Some? {
        ghost var k :| 0 <= k <= |Encode(packets[i])| && connection.outbox == before + Encode(packets[i])[..k];
        Cut(old(connection.outbox), WireOf(packets[..i]), Encode(packets[i]), WireOf(packets[i + 1..]), k);
        assert connection.outbox == old(connection.outbox) + WireOf(packets)[..|WireOf(packets[..i])| + k];
        return;
      }
    }
    assert packets[..|packets|] == packets;
    return None;
  }

  lemma Written(packets: seq<Packet>, i: nat)
    requires i <= |packets|
    ensures WireOf(packets[..0]) == []
    ensures i < |packets| ==>
              && WireOf(packets[..i + 1]) == WireOf(packets[..i]) + Encode(packets[i])
              && WireOf(packets) == WireOf(packets[..i]) + (Encode(packets[i]) + WireOf(packets[i + 1..]))
  {
    hide Encode;
    hide WireOf;
    assert packets[..0] == [];
    WireOfNone();
    if i < |packets| {
      var left := packets[i..];
      assert packets[..i + 1] == packets[..i] + [packets[i]];
      WireOfConcat(packets[..i], [packets[i]]);
      WireOfOne(packets[i]);
      assert packets == packets[..i] + left;
      assert left[1..] == packets[i + 1..];
      WireOfConcat(packets[..i], left);
      WireOfCons(left);
    }
  }

  lemma WireOfNone()
    ensures WireOf([]) == []
  {
  }

  lemma Cut(out: seq<byte>, before: seq<byte>, packet: seq<byte>, after: seq<byte>, k: nat)
    requires k <= |packet|
    ensures out + before + packet[..k] == out + (before + (packet + after))[..|before| + k]
  {
    assert (before + (packet + after))[..|before| + k] == before + packet[..k];
  }

  /** read_packet until it fails: exactly the complete packets, in order, however TCP split them. */
  method ReadPackets(connection: TcpConnection) returns (packets: seq<Packet>)
    requires connection.valid && connection.reliable && |connection.inbox| < U64_SIZE
    modifies connection`inbox
    ensures packets == Deframe(old(connection.inbox))
  {
    hide Encode;
    hide Deframe;
    packets := [];
    var open := true;
    assert [] + Deframe(connection.inbox) == Deframe(connection.inbox);
    while open
      invariant |connection.inbox| <= |old(connection.inbox)|
      invariant Deframe(old(connection.inbox)) == packets + (if open then Deframe(connection.inbox) else [])
      decreases open, |connection.inbox|
    {
      ghost var stream := connection.inbox;
      var r := ReadPacket(connection);
      if r.Err? {
        if Deframe(stream) != [] {
          DeframeNeedsFront(stream);
        }
        open := false;
      } else {
        DeframeFront(r.value, connection.inbox);
        EncodedIsLong(r.value);
        assert packets + ([r.value] + Deframe(connection.inbox)) == packets + [r.value] + Deframe(connection.inbox);
        packets := packets + [r.value];
      }
    }
  }

  lemma EncodedIsLong(p: Packet)
    requires WellFormed(p)
    ensures |Encode(p)| >= ENCODED_SIZE
  {
    hide Encode;
    FrameAtFront(p, [], |Encode(p)|);
  }
}
