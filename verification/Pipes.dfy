/** One direction of a connection in bytes: what write_all has still to hand over, what the network holds,
    and what read_exact already has of the packet being read. */
module Pipes {
  import opened Results
  import opened TransferTypes
  import opened Bytes
  import opened Session
  import opened MessageWire
  import P = Packets

  datatype Pipe = Pipe(unsent: seq<byte>, net: seq<byte>, got: seq<byte>) {
    function All(): seq<byte> { got + net + unsent }
  }

  const NO_BYTES := Pipe([], [], [])

  /** How many bytes read_packet is waiting for: the rest of the header, then the rest of the payload. */
  function Awaited(got: seq<byte>): nat {
    if |got| < P.ENCODED_SIZE then P.ENCODED_SIZE - |got|
    else
      var n := P.ENCODED_SIZE + FromBigEndian(got[12..20]);
      if |got| < n then n - |got| else 0
  }

  /** What read_packet and the codec make of the bytes of a packet. */
  function ReadMessage(got: seq<byte>): Result<Msg, ErrorCode> {
    match P.Decode(got)
    case Err(_) => Err(InvalidPayload)
    case Ok(p) => FromPacket(p)
  }

  /** What write_packet hands over for messages that fit their packets. */
  function Written(out: seq<Msg>): seq<byte>
    requires AllSendable(out)
  {
    P.WireOf(ToPackets(out))
  }

  /** The bytes anywhere on the way are those of these messages, and the reader has bytes of the first one
      only. */
  predicate Carries(pipe: Pipe, ms: seq<Msg>) {
    && AllSendable(ms) && pipe.All() == Written(ms)
    && (ms == [] ==> pipe.got == [])
    && (ms != [] ==> |pipe.got| <= |P.Encode(PacketAt(ms, 0))|)
  }

  // ---------- the bytes of messages ----------

  lemma WrittenConcat(a: seq<Msg>, b: seq<Msg>)
    requires AllSendable(a) && AllSendable(b)
    ensures AllSendable(a + b) && Written(a + b) == Written(a) + Written(b)
  {
    hide Fits;
    hide ToPacket;
    assert forall m <- a + b :: m in a || m in b;
    var all := ToPackets(a + b);
    forall i | 0 <= i < |all|
      ensures all[i] == (ToPackets(a) + ToPackets(b))[i]
    {
      assert all[i] == PacketAt(a + b, i);
    }
    assert all == ToPackets(a) + ToPackets(b);
    P.WireOfConcat(ToPackets(a), ToPackets(b));
  }

  lemma NothingWritten()
    ensures Written([]) == []
  {
  }

  lemma HeadIsPacket(ms: seq<Msg>)
    requires AllSendable(ms) && ms != []
    ensures P.WellFormed(PacketAt(ms, 0)) && FromPacket(PacketAt(ms, 0)) == Ok(ms[0])
  {
    hide Payload;
    hide FromPacket;
    assert ms[0] in ms;
    MessageRoundTrip(ms[0]);
  }

  lemma TailPackets(ms: seq<Msg>)
    requires AllSendable(ms) && ms != []
    ensures AllSendable(ms[1..]) && ToPackets(ms)[1..] == ToPackets(ms[1..])
  {
    hide Fits;
    hide ToPacket;
    var rest := ms[1..];
    forall i | 0 <= i < |rest|
      ensures ToPackets(ms)[1..][i] == ToPackets(rest)[i]
    {
      assert ToPackets(ms)[i + 1] == PacketAt(ms, i + 1) && ToPackets(rest)[i] == PacketAt(rest, i);
    }
  }

  lemma HeadWritten(ms: seq<Msg>)
    requires AllSendable(ms) && ms != []
    ensures AllSendable(ms[1..]) && Written(ms) == P.Encode(PacketAt(ms, 0)) + Written(ms[1..])
    ensures P.WellFormed(PacketAt(ms, 0)) && |P.Encode(PacketAt(ms, 0))| >= P.ENCODED_SIZE
    ensures P.Decode(P.Encode(PacketAt(ms, 0))) == Ok(PacketAt(ms, 0)) && FromPacket(PacketAt(ms, 0)) == Ok(ms[0])
  {
    hide Fits;
    hide PacketAt;
    hide P.WellFormed;
    hide P.Encode;
    hide P.Decode;
    hide FromPacket;
    HeadIsPacket(ms);
    TailPackets(ms);
    var p := PacketAt(ms, 0);
    P.DecodeEncode(p);
    P.FrameAtFront(p, [], |P.Encode(p)|);
    P.WireOfCons(ToPackets(ms));
  }

  // ---------- reading ----------

  /** The reader waits exactly for the rest of the first packet. */
  lemma AwaitedIsRest(p: P.Packet, got: seq<byte>)
    requires P.WellFormed(p) && got <= P.Encode(p)
    ensures |got| < P.ENCODED_SIZE ==> 0 < Awaited(got) <= |P.Encode(p)| - |got|
    ensures |got| >= P.ENCODED_SIZE ==> Awaited(got) == |P.Encode(p)| - |got|
    ensures Awaited(got) == 0 ==> got == P.Encode(p)
  {
    hide P.Encode;
    hide FromBigEndian;
    var whole := P.Encode(p);
    P.FrameAtFront(p, [], |whole|);
    assert (whole + [])[..|whole|] == whole;
    WholeFrame(whole);
    if |got| >= P.ENCODED_SIZE {
      assert got[12..20] == whole[12..20];
    }
  }

  lemma WholeFrame(stream: seq<byte>)
    requires P.FrameSize(stream) == Some(|stream|)
    ensures P.ENCODED_SIZE <= |stream| && P.ENCODED_SIZE + FromBigEndian(stream[12..20]) == |stream|
  {
  }

  lemma GotIsFront(pipe: Pipe, ms: seq<Msg>)
    requires Carries(pipe, ms) && ms != []
    ensures P.WellFormed(PacketAt(ms, 0)) && pipe.got <= P.Encode(PacketAt(ms, 0))
  {
    hide P.WellFormed;
    hide P.Encode;
    hide P.Decode;
    hide FromPacket;
    hide Written;
    hide PacketAt;
    HeadWritten(ms);
    var whole := P.Encode(PacketAt(ms, 0));
    assert pipe.got == pipe.All()[..|pipe.got|];
    assert (whole + Written(ms[1..]))[..|pipe.got|] == whole[..|pipe.got|];
  }

  /** A reader that waits for nothing more has the first message, and is done with it. */
  lemma ReadsMessage(pipe: Pipe, ms: seq<Msg>)
    requires Carries(pipe, ms) && Awaited(pipe.got) == 0
    ensures ms != [] && ReadMessage(pipe.got) == Ok(ms[0]) && Carries(pipe.(got := []), ms[1..])
  {
    hide P.WellFormed;
    hide P.Encode;
    hide P.Decode;
    hide FromPacket;
    hide Written;
    hide PacketAt;
    if ms != [] {
      GotIsFront(pipe, ms);
      HeadWritten(ms);
      var whole := P.Encode(PacketAt(ms, 0));
      AwaitedIsRest(PacketAt(ms, 0), pipe.got);
      hide Awaited;
      assert pipe.got == whole;
      var rest := pipe.(got := []);
      assert pipe.All() == whole + rest.All();
      assert rest.All() == pipe.All()[|whole|..] && Written(ms[1..]) == Written(ms)[|whole|..];
    }
  }

  /** A reader that has nothing more to wait for is the only one that cannot take a byte that is there. */
  lemma CanArrive(pipe: Pipe, ms: seq<Msg>)
    requires Carries(pipe, ms) && ms != [] && Awaited(pipe.got) > 0
    ensures pipe.net != [] || pipe.unsent != []
  {
    hide P.WellFormed;
    hide P.Encode;
    hide P.Decode;
    hide FromPacket;
    hide Written;
    hide PacketAt;
    GotIsFront(pipe, ms);
    HeadWritten(ms);
    AwaitedIsRest(PacketAt(ms, 0), pipe.got);
    hide Awaited;
    assert |pipe.All()| == |pipe.got| + |pipe.net| + |pipe.unsent|;
  }

  lemma Arrives(pipe: Pipe, ms: seq<Msg>, n: nat)
    requires Carries(pipe, ms) && n <= |pipe.net| && n <= Awaited(pipe.got)
    ensures Carries(pipe.(net := pipe.net[n..], got := pipe.got + pipe.net[..n]), ms)
  {
    hide P.WellFormed;
    hide P.Encode;
    hide P.Decode;
    hide FromPacket;
    hide PacketAt;
    var next := pipe.(net := pipe.net[n..], got := pipe.got + pipe.net[..n]);
    assert next.All() == pipe.All();
    if ms == [] {
      NothingWritten();
      assert |pipe.All()| == |pipe.got| + |pipe.net| + |pipe.unsent|;
    } else {
      hide Written;
      GotIsFront(pipe, ms);
      AwaitedIsRest(PacketAt(ms, 0), pipe.got);
    }
  }

  lemma Sends(pipe: Pipe, ms: seq<Msg>, n: nat)
    requires Carries(pipe, ms) && n <= |pipe.unsent|
    ensures Carries(pipe.(unsent := pipe.unsent[n..], net := pipe.net + pipe.unsent[..n]), ms)
  {
    hide P.Encode;
    hide Written;
    hide PacketAt;
    var next := pipe.(unsent := pipe.unsent[n..], net := pipe.net + pipe.unsent[..n]);
    assert next.All() == pipe.All();
  }

  // ---------- writing ----------

  lemma Writes(pipe: Pipe, ms: seq<Msg>, out: seq<Msg>)
    requires Carries(pipe, ms) && pipe.unsent == [] && AllSendable(out)
    ensures Carries(pipe.(unsent := Written(out)), ms + out)
  {
    hide P.Encode;
    hide Written;
    WrittenConcat(ms, out);
    var next := pipe.(unsent := Written(out));
    assert pipe.All() == pipe.got + pipe.net;
    assert next.All() == pipe.All() + Written(out);
    if ms != [] {
      assert PacketAt(ms + out, 0) == PacketAt(ms, 0);
    }
  }

  lemma CarriesNothing(pipe: Pipe)
    ensures Carries(NO_BYTES, [])
    ensures Carries(pipe, []) ==> pipe == NO_BYTES
  {
    NothingWritten();
    if Carries(pipe, []) {
      assert |pipe.All()| == |pipe.got| + |pipe.net| + |pipe.unsent|;
    }
  }

  /** A packet is shorter than 2^64 bytes. */
  lemma WrittenLength(out: seq<Msg>)
    requires AllSendable(out) && |out| <= 1
    ensures |Written(out)| < P.U64_SIZE
  {
    if out == [] {
      NothingWritten();
    } else {
      var p := PacketAt(out, 0);
      assert out[0] in out;
      HeadWritten(out);
      hide Payload;
      assert |p.payload| < P.U64_SIZE - P.ENCODED_SIZE;
      hide P.Encode;
      hide P.WellFormed;
      P.FrameAtFront(p, [], |P.Encode(p)|);
      assert out[1..] == [];
      NothingWritten();
    }
  }
}
