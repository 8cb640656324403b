/** The streaming hash of src/utils/Sha256.cpp, proved against FIPS 180-4. */
module Sha256 {
  import opened Results
  import opened TransferTypes
  import opened Bytes
  import opened Sha256Spec

  const MAX_MESSAGE: nat := 0x2000_0000_0000_0000

  function ToWords(s: seq<bv32>): Words
    requires |s| == 8
  {
    Words(s[0], s[1], s[2], s[3], s[4], s[5], s[6], s[7])
  }

  lemma AddCommutes(x: bv32, y: bv32)
    ensures Add(x, y) == Add(y, x)
  {
  }

  lemma AddIsPlus(x: bv32, y: bv32)
    ensures Add(x, y) == x + y
  {
  }

  lemma AddLeft(x: bv32, y: bv32, z: bv32)
    ensures Add(x + y, z) == x + y + z
  {
  }

  lemma AddRight(x: bv32, y: bv32, z: bv32)
    ensures Add(x, y + z) == x + y + z
  {
  }

  lemma SumLeft(x: bv32, y: bv32, z: bv32)
    ensures Add(Add(x, y), z) == x + y + z
  {
    hide Add;
    AddIsPlus(x, y);
    AddLeft(x, y, z);
  }

  lemma SumRight(x: bv32, y: bv32, z: bv32)
    ensures Add(x, Add(y, z)) == x + y + z
  {
    hide Add;
    AddIsPlus(y, z);
    AddRight(x, y, z);
  }

  lemma AddAssociates(x: bv32, y: bv32, z: bv32)
    ensures Add(Add(x, y), z) == Add(x, Add(y, z))
  {
    hide Add;
    SumLeft(x, y, z);
    SumRight(x, y, z);
  }

  lemma SumOrder(p: bv32, q: bv32, r: bv32, s: bv32)
    ensures Add(Add(Add(p, q), r), s) == Add(Add(Add(s, r), q), p)
  {
    hide Add;
    AddCommutes(p, q);
    AddAssociates(q, p, r);
    AddCommutes(p, r);
    AddAssociates(q, r, p);
    AddCommutes(q, r);
    AddCommutes(Add(Add(r, q), p), s);
    AddAssociates(s, Add(r, q), p);
    AddAssociates(s, r, q);
  }

  lemma FirstWords(block: seq<byte>, i: nat)
    requires |block| == 64 && i < 16
    ensures Schedule(block, i) == BlockWord(block, i * 4)
  {
    hide BlockWord;
  }

  /** The source adds the four schedule terms in another order than the standard. */
  lemma ScheduleStep(block: seq<byte>, i: nat, w16: bv32, w15: bv32, w7: bv32, w2: bv32)
    requires |block| == 64 && 16 <= i < 64
    requires w16 == Schedule(block, i - 16) && w15 == Schedule(block, i - 15)
    requires w7 == Schedule(block, i - 7) && w2 == Schedule(block, i - 2)
    ensures Add(Add(Add(w16, SmallSigma0(w15)), w7), SmallSigma1(w2)) == Schedule(block, i)
  {
    hide Add;
    hide BlockWord;
    hide SmallSigma0;
    hide SmallSigma1;
    SumOrder(w16, SmallSigma0(w15), w7, SmallSigma1(w2));
  }

  /** The words are the hash value after the whole blocks in done. */
  ghost predicate Digested(words: seq<bv32>, done: seq<byte>) {
    |words| == 8 && |done| % 64 == 0 && ToWords(words) == HashBlocks(H0, done)
  }

  /** The words after process_block. */
  ghost predicate Compressed(before: seq<bv32>, block: seq<byte>, after: seq<bv32>) {
    |before| == |after| == 8 && |block| == 64 && ToWords(after) == Compress(ToWords(before), block)
  }

  lemma DigestBlock(before: seq<bv32>, done: seq<byte>, block: seq<byte>, after: seq<bv32>)
    requires Digested(before, done) && Compressed(before, block, after)
    ensures Digested(after, done + block)
  {
    hide HashBlocks;
    hide Compress;
    hide ToWords;
    hide H0;
    OneMoreBlock(H0, done, block);
  }

  class Sha256 {
    const state: array<bv32>
    const buffer: array<byte>
    var bufferSize: nat
    var totalBytes: u64
    var finalized: bool
    /** Everything passed to Update so far. */
    ghost var message: seq<byte>

    ghost predicate Valid()
      reads this, state, buffer
    {
      && Shape()
      && totalBytes == (|message| as int) % 0x1_0000_0000_0000_0000
      && (!finalized ==> Absorbed(message))
      && (finalized && |message| < MAX_MESSAGE ==> ToWords(state[..]) == Hash(message))
    }

    ghost predicate Shape()
      reads this`bufferSize
    {
      state.Length == 8 && buffer.Length == 64 && state as object != buffer as object && bufferSize < 64
    }

    /** The buffer is the unprocessed tail of done, the state the hash of all that precedes it. */
    ghost predicate Absorbed(done: seq<byte>)
      requires Shape()
      reads this`bufferSize, state, buffer
    {
      && bufferSize == |done| % 64
      && buffer[..bufferSize] == done[|done| - bufferSize..]
      && Digested(state[..], done[..|done| - bufferSize])
    }

    constructor ()
      ensures Valid() && !finalized && message == []
      ensures fresh(state) && fresh(buffer)
    {
      hide Digested;
      hide Hash;
      hide ToWords;
      hide H0;
      state := new bv32[8] [H0.a, H0.b, H0.c, H0.d, H0.e, H0.f, H0.g, H0.h];
      buffer := new byte[64];
      bufferSize, totalBytes, finalized := 0, 0, false;
      message := [];
      new;
      EmptyDigest(state[..]);
    }

    method FillSchedule(block: seq<byte>) returns (w: array<bv32>)
      requires |block| == 64
      ensures fresh(w) && w.Length == 64
      ensures forall t :: 0 <= t < 64 ==> w[t] == Schedule(block, t)
    {
      hide Schedule;
      hide BlockWord;
      hide Xor3;
      hide ROTR;
      hide SHR;
      hide Add;
      w := new bv32[64];
      for i := 0 to 16
        invariant forall t :: 0 <= t < i ==> w[t] == Schedule(block, t)
      {
        FirstWords(block, i);
        w[i] := BlockWord(block, i * 4);
      }
      for i := 16 to 64
        invariant forall t :: 0 <= t < i ==> w[t] == Schedule(block, t)
      {
        var s0 := Xor3(ROTR(7, w[i - 15]), ROTR(18, w[i - 15]), SHR(3, w[i - 15]));
        var s1 := Xor3(ROTR(17, w[i - 2]), ROTR(19, w[i - 2]), SHR(10, w[i - 2]));
        ScheduleStep(block, i, w[i - 16], w[i - 15], w[i - 7], w[i - 2]);
        w[i] := Add(Add(Add(w[i - 16], s0), w[i - 7]), s1);
      }
    }

    method ProcessBlock(block: seq<byte>)
      requires |block| == 64 && state.Length == 8
      modifies state
      ensures Compressed(old(state[..]), block, state[..])
    {
      hide Schedule;
      hide Xor3;
      hide ROTR;
      hide Ch;
      hide Maj;
      hide RoundConstant;
      hide Add;
      var w := FillSchedule(block);
      var a, b, c, d := state[0], state[1], state[2], state[3];
      var e, f, g, h := state[4], state[5], state[6], state[7];
      ghost var start := ToWords(state[..]);
      for i := 0 to 64
        invariant Words(a, b, c, d, e, f, g, h) == Rounds(start, block, i)
        invariant state[..] == old(state[..])
        invariant forall t :: 0 <= t < 64 ==> w[t] == Schedule(block, t)
      {
        var s1 := Xor3(ROTR(6, e), ROTR(11, e), ROTR(25, e));
        var ch := Ch(e, f, g);
        var temp1 := Add(Add(Add(Add(h, s1), ch), RoundConstant(i)), w[i]);
        var s0 := Xor3(ROTR(2, a), ROTR(13, a), ROTR(22, a));
        var maj := Maj(a, b, c);
        var temp2 := Add(s0, maj);
        h := g;
        g := f;
        f := e;
        e := Add(d, temp1);
        d := c;
        c := b;
        b := a;
        a := Add(temp1, temp2);
      }
      state[0] := Add(state[0], a);
      state[1] := Add(state[1], b);
      state[2] := Add(state[2], c);
      state[3] := Add(state[3], d);
      state[4] := Add(state[4], e);
      state[5] := Add(state[5], f);
      state[6] := Add(state[6], g);
      state[7] := Add(state[7], h);
    }

    /** Fails only after final_hex, and then changes nothing. */
    method Update(bytes: seq<byte>) returns (ok: bool)
      requires Valid()
      modifies this, state, buffer
      ensures Valid()
      ensures ok <==> !old(finalized)
      ensures finalized == old(finalized)
      ensures message == if ok then old(message) + bytes else old(message)
      ensures !ok ==> state[..] == old(state[..])
    {
      hide Digested;
      hide Compressed;
      hide Hash;
      if finalized {
        return false;
      }
      CountBytes(|message|, |bytes|);
      totalBytes := (totalBytes + |bytes|) % 0x1_0000_0000_0000_0000;
      var offset := 0;
      ghost var before := message;
      assert before + bytes[..0] == before;

      if bufferSize > 0 {
        offset := TopUp(bytes);
      }

      offset := AbsorbBlocks(bytes, offset);

      if offset < |bytes| {
        BufferTail(bytes, offset);
      } else {
        assert bytes[..offset] == bytes;
      }
      message := before + bytes;
      return true;
    }

    /** The loop of update over whole blocks. */
    method AbsorbBlocks(bytes: seq<byte>, from: nat) returns (offset: nat)
      requires Shape() && from <= |bytes|
      requires bufferSize > 0 ==> from == |bytes|
      requires Absorbed(message + bytes[..from])
      modifies state
      ensures Shape() && from <= offset <= |bytes| < offset + 64
      ensures bufferSize > 0 ==> offset == |bytes|
      ensures Absorbed(message + bytes[..offset])
    {
      hide Digested;
      hide Compressed;
      offset := from;
      while offset + 64 <= |bytes|
        invariant from <= offset <= |bytes|
        invariant bufferSize > 0 ==> offset == |bytes|
        invariant Absorbed(message + bytes[..offset])
        modifies state
      {
        var block := bytes[offset..offset + 64];
        ghost var done := message + bytes[..offset];
        ghost var before := state[..];
        assert done[..|done| - 0] == done;
        assert message + bytes[..offset + 64] == done + block;
        ProcessBlock(block);
        DigestBlock(before, done, block, state[..]);
        offset := offset + 64;
        assert (done + block)[..|done + block| - 0] == done + block;
      }
    }

    /** The part of update that keeps what is left after the last whole block. */
    method BufferTail(bytes: seq<byte>, offset: nat)
      requires Shape() && offset < |bytes| < offset + 64 && bufferSize == 0
      requires Absorbed(message + bytes[..offset])
      modifies this`bufferSize, buffer
      ensures Shape() && Absorbed(message + bytes)
    {
      hide Digested;
      hide Compressed;
      ghost var done := message + bytes[..offset];
      assert done[..|done| - 0] == done;
      bufferSize := |bytes| - offset;
      CopyInto(bytes, offset, bufferSize, 0);
      AbsorbedTail(message, bytes, offset);
    }

    /** The part of update that completes a partly filled buffer. */
    method TopUp(bytes: seq<byte>) returns (offset: nat)
      requires Shape() && 0 < bufferSize && Absorbed(message)
      modifies this`bufferSize, state, buffer
      ensures Shape() && offset <= |bytes|
      ensures bufferSize > 0 ==> offset == |bytes|
      ensures Absorbed(message + bytes[..offset])
    {
      hide Digested;
      hide Compressed;
      ghost var tail := bufferSize;
      ghost var done := message[..|message| - tail];
      offset := if 64 - bufferSize < |bytes| then 64 - bufferSize else |bytes|;
      CopyInto(bytes, 0, offset, bufferSize);
      bufferSize := bufferSize + offset;
      TopUpSlices(message, tail, bytes, offset, buffer[..bufferSize]);
      if bufferSize == 64 {
        assert buffer[..] == buffer[..64];
        ProcessBuffer(done);
      }
    }

    /** process_block of the full buffer. */
    method ProcessBuffer(ghost done: seq<byte>)
      requires state.Length == 8 && buffer.Length == 64 && state as object != buffer as object
      requires Digested(state[..], done)
      modifies this`bufferSize, state
      ensures bufferSize == 0 && Digested(state[..], done + buffer[..])
    {
      hide Digested;
      hide Compressed;
      ghost var before := state[..];
      ProcessBlock(buffer[..]);
      DigestBlock(before, done, buffer[..], state[..]);
      bufferSize := 0;
    }

    /** std::copy_n of bytes[from..from + count] to the buffer at position to. */
    method CopyInto(bytes: seq<byte>, from: nat, count: nat, to: nat)
      requires buffer.Length == 64
      requires from + count <= |bytes| && to + count <= 64
      modifies buffer
      ensures buffer[..] == old(buffer[..to]) + bytes[from..from + count] + old(buffer[to + count..])
    {
      for i := 0 to count
        invariant buffer[..] == Copied(old(buffer[..]), bytes, from, to, i)
      {
        ghost var before := buffer[..];
        CopyStep(old(buffer[..]), bytes, from, to, i);
        buffer[to + i] := bytes[from + i];
        assert buffer[..] == before[to + i := bytes[from + i]];
      }
    }

    /** The one or two process_block calls of final_hex. */
    method ProcessFinal(blocks: seq<byte>, ghost done: seq<byte>)
      requires |blocks| == 64 || |blocks| == 128
      requires Shape() && Digested(state[..], done)
      modifies state
      ensures Digested(state[..], done + blocks)
    {
      hide Digested;
      hide Compressed;
      ghost var before := state[..];
      ProcessBlock(blocks[..64]);
      DigestBlock(before, done, blocks[..64], state[..]);
      if |blocks| == 128 {
        before := state[..];
        ProcessBlock(blocks[64..]);
        DigestBlock(before, done + blocks[..64], blocks[64..], state[..]);
        assert done + blocks[..64] + blocks[64..] == done + blocks;
      } else {
        assert blocks[..64] == blocks;
      }
    }

    /** The digest of everything passed to Update; a second call returns it again. */
    method FinalHex() returns (hex: string)
      requires Valid()
      modifies this, state
      ensures Valid() && finalized
      ensures message == old(message)
      ensures |message| < MAX_MESSAGE ==> hex == Sha256Hex(message)
      ensures old(finalized) ==> state[..] == old(state[..])
    {
      hide Hash;
      hide Sha256Hex;
      hide Hex;
      hide Pad;
      hide IsFinalBlocks;
      hide Digested;
      hide ToWords;
      if finalized {
        HexOfHash(message);
        return Hex(ToWords(state[..]));
      }
      var bitLength := (totalBytes * 8) % 0x1_0000_0000_0000_0000;
      var finalBlocks, finalSize := FinalBlocks(buffer[..bufferSize], bitLength);
      PaddedTail(message, bufferSize, finalSize, finalBlocks[..finalSize], bitLength);
      ghost var done := message[..|message| - bufferSize];
      ProcessFinal(finalBlocks[..finalSize], done);
      if |message| < MAX_MESSAGE {
        FinalDigest(state[..], message);
      }
      finalized := true;
      HexOfHash(message);
      return Hex(ToWords(state[..]));
    }
  }

  /** The buffer with the first i bytes copied. */
  function Copied(buffer: seq<byte>, bytes: seq<byte>, from: nat, to: nat, i: nat): seq<byte>
    requires from + i <= |bytes| && to + i <= |buffer|
  {
    buffer[..to] + bytes[from..from + i] + buffer[to + i..]
  }

  lemma CopyStep(buffer: seq<byte>, bytes: seq<byte>, from: nat, to: nat, i: nat)
    requires from + i < |bytes| && to + i < |buffer|
    ensures Copied(buffer, bytes, from, to, i + 1) == Copied(buffer, bytes, from, to, i)[to + i := bytes[from + i]]
  {
  }

  lemma TopUpSlices(message: seq<byte>, tail: nat, bytes: seq<byte>, offset: nat, buffered: seq<byte>)
    requires tail == |message| % 64 && offset <= |bytes| && tail + offset <= 64
    requires buffered == message[|message| - tail..] + bytes[..offset]
    ensures var all := message + bytes[..offset];
            && all == message[..|message| - tail] + buffered
            && all[..|all| - 0] == all
            && all[..|all| - |buffered|] == message[..|message| - tail]
            && all[|all| - |buffered|..] == buffered
            && |all| % 64 == (tail + offset) % 64
  {
  }

  lemma CountBytes(before: nat, more: nat)
    ensures ((before as int) % 0x1_0000_0000_0000_0000 + more) % 0x1_0000_0000_0000_0000
         == (before + more) % 0x1_0000_0000_0000_0000
  {
  }

  lemma AbsorbedTail(before: seq<byte>, bytes: seq<byte>, offset: nat)
    requires offset <= |bytes| < offset + 64 && |before + bytes[..offset]| % 64 == 0
    ensures |before + bytes| % 64 == |bytes| - offset
    ensures var all := before + bytes;
            && all[|all| - (|bytes| - offset)..] == bytes[offset..]
            && all[..|all| - (|bytes| - offset)] == before + bytes[..offset]
  {
  }

  lemma EmptyDigest(words: seq<bv32>)
    requires words == [H0.a, H0.b, H0.c, H0.d, H0.e, H0.f, H0.g, H0.h]
    ensures Digested(words, [])
  {
    hide Compress;
    hide H0;
  }

  lemma HexOfHash(message: seq<byte>)
    ensures Sha256Hex(message) == Hex(Hash(message))
  {
    hide Hash;
    hide Hex;
  }

  lemma FinalDigest(words: seq<bv32>, message: seq<byte>)
    requires Digested(words, Pad(message))
    ensures |words| == 8 && ToWords(words) == Hash(message) && Hex(ToWords(words)) == Sha256Hex(message)
  {
    hide HashBlocks;
    hide Pad;
    hide Hex;
    hide ToWords;
    hide H0;
  }

  /** What final_hex puts in its last one or two blocks. */
  predicate IsFinalBlocks(blocks: seq<byte>, buffered: seq<byte>, bitLength: nat) {
    && |buffered| < 64
    && |blocks| == (if |buffered| + 1 <= 56 then 64 else 128)
    && blocks == buffered + [0x80] + Zeros(|blocks| - 9 - |buffered|) + BigEndian(bitLength, 8)
  }

  /** The array built by final_hex: buffered bytes, 0x80, zeros and the bit length. */
  method FinalBlocks(buffered: seq<byte>, bitLength: nat) returns (finalBlocks: array<byte>, finalSize: nat)
    requires |buffered| < 64
    ensures fresh(finalBlocks) && finalBlocks.Length == 128
    ensures (finalSize == 64 || finalSize == 128) && IsFinalBlocks(finalBlocks[..finalSize], buffered, bitLength)
  {
    hide BigEndian;
    var bufferSize := |buffered|;
    finalBlocks := new byte[128](_ => 0);
    for i := 0 to bufferSize
      invariant finalBlocks[..i] == buffered[..i]
      invariant forall j :: i <= j < 128 ==> finalBlocks[j] == 0
    {
      finalBlocks[i] := buffered[i];
      assert buffered[..i + 1] == buffered[..i] + [buffered[i]];
    }
    finalBlocks[bufferSize] := 0x80;
    finalSize := if bufferSize + 1 <= 56 then 64 else 128;
    ghost var head := finalBlocks[..finalSize - 8];
    assert head == buffered + [0x80] + Zeros(finalSize - 9 - bufferSize);
    WriteLength(finalBlocks, finalSize, bitLength);
  }

  /** The shift loop of final_hex: eight bytes, most significant first. */
  method WriteLength(finalBlocks: array<byte>, finalSize: nat, bitLength: nat)
    requires 8 <= finalSize <= finalBlocks.Length
    modifies finalBlocks
    ensures finalBlocks[..finalSize] == old(finalBlocks[..finalSize - 8]) + BigEndian(bitLength, 8)
  {
    hide ByteAt;
    hide BigEndian;
    ghost var length := BigEndian(bitLength, 8);
    ghost var head := finalBlocks[..finalSize - 8];
    var shift := 56;
    assert length[..0] == [];
    while shift >= 0
      invariant -8 <= shift <= 56 && shift % 8 == 0
      invariant finalBlocks[..finalSize - 8 + (56 - shift) / 8] == head + length[..(56 - shift) / 8]
      decreases shift + 8
    {
      ghost var written := (56 - shift) / 8;
      BigEndianAt(bitLength, 8, written);
      finalBlocks[finalSize - 8 + (56 - shift) / 8] := ByteAt(bitLength, shift);
      assert length[..written + 1] == length[..written] + [length[written]];
      shift := shift - 8;
    }
    assert length[..8] == length;
  }

  /** The last blocks complete the message to its FIPS padding. */
  lemma PaddedTail(message: seq<byte>, tail: nat, finalSize: nat, blocks: seq<byte>, bitLength: nat)
    requires tail == |message| % 64 && finalSize == |blocks|
    requires IsFinalBlocks(blocks, message[|message| - tail..], bitLength)
    requires bitLength == (((|message| as int) % 0x1_0000_0000_0000_0000) * 8) % 0x1_0000_0000_0000_0000
    ensures |message| < MAX_MESSAGE ==> message[..|message| - tail] + blocks == Pad(message)
  {
    hide BigEndian;
    hide Zeros;
    hide ZeroCount;
    if |message| < MAX_MESSAGE {
      ZeroCountFills(|message|, tail, finalSize);
      BitsFit(|message|);
      Joined(message, |message| - tail, [0x80], Zeros(finalSize - 9 - tail), BigEndian(bitLength, 8));
    }
  }

  lemma BitsFit(length: nat)
    requires length < MAX_MESSAGE
    ensures (((length as int) % 0x1_0000_0000_0000_0000) * 8) % 0x1_0000_0000_0000_0000 == 8 * length
  {
  }

  lemma Joined(message: seq<byte>, k: nat, a: seq<byte>, b: seq<byte>, c: seq<byte>)
    requires k <= |message|
    ensures message[..k] + (message[k..] + a + b + c) == message + a + b + c
  {
  }

  lemma ZeroCountFills(length: nat, tail: nat, finalSize: nat)
    requires tail == length % 64 && finalSize == if tail + 1 <= 56 then 64 else 128
    ensures tail + 1 + ZeroCount(length) == finalSize - 8
  {
    var q := length / 64;
    var t := (55 - length) / 64;
    assert 55 - length == 64 * t + ZeroCount(length);
    assert length == 64 * q + tail;
  }

  /** sha256_file: the digest does not depend on the chunk size the file is read with. */
  method Sha256File(content: seq<byte>, chunkSize: nat, stopAfter: Option<nat>) returns (r: Result<string, ErrorCode>)
    ensures chunkSize == 0 ==> r == Err(InternalError)
    ensures chunkSize > 0 && stopAfter.None? ==> r.Ok?
    ensures chunkSize > 0 && r.Err? ==> r == Err(Cancelled)
    ensures r.Ok? && |content| < MAX_MESSAGE ==> r == Ok(Sha256Hex(content))
  {
    hide *;
    if chunkSize == 0 {
      return Err(InternalError);
    }
    var sha := new Sha256();
    var position: nat := 0;
    var eof := false;
    var rounds := 0;
    while !eof
      invariant sha.Valid() && !sha.finalized
      invariant fresh(sha) && fresh(sha.state) && fresh(sha.buffer)
      invariant position <= |content| && sha.message == content[..position]
      invariant eof ==> position == |content|
      decreases !eof, |content| - position
    {
      if stopAfter.Some? && rounds >= stopAfter.value {
        return Err(Cancelled);
      }
      var readCount := if |content| - position < chunkSize then |content| - position else chunkSize;
      eof := readCount < chunkSize;
      var chunk := content[position..position + readCount];
      if readCount > 0 {
        var ok := sha.Update(chunk);
      }
      assert content[..position] + chunk == content[..position + readCount];
      position := position + readCount;
      rounds := rounds + 1;
    }
    assert content[..position] == content;
    var hex := sha.FinalHex();
    return Ok(hex);
  }
}
