/** Wire layout of the two sequenced SOE data-channel packets and the rule
    that splits an oversized message into fragments.

      DATA        [0x0009 BE16][sequence BE16][payload ...]
      FRAGMENTED  [0x000D BE16][sequence BE16][total length BE32, first only][chunk ...]

    The integrity trailer (crc_length bytes) is appended further down the
    outbound pipeline and is not part of the packets built here. */
module SoeFraming {
  import opened Bytes
  import opened Wrappers

  const DataChannelMessage: u16 := 0x09
  const FragmentedDataChannelMessage: u16 := 0x0D

  /** Packet type plus sequence number. */
  const SequencedHeaderLength: nat := 4
  /** The total-message-length prefix carried by the first fragment. */
  const TotalLengthFieldLength: nat := 4

  datatype DataPacket = DataPacket(sequence: u16, payload: seq<byte>)

  /** One fragment; only the first of a message carries `totalLength`. */
  datatype Fragment = Fragment(sequence: u16, totalLength: Option<u32>, chunk: seq<byte>)

  /** The sequence number `n` steps after `s`; sequence numbers are 16 bits wide. */
  function NextSequence(s: u16, n: nat): u16
  {
    (s + n) % 0x1_0000
  }

  /** Stepping m and then n numbers is stepping m + n; 2^16 steps come back
      to the start. */
  lemma NextSequenceCompose(s: u16, m: nat, n: nat)
    ensures NextSequence(NextSequence(s, m), n) == NextSequence(s, m + n)
    ensures NextSequence(s, 0) == s && NextSequence(s, 0x1_0000) == s
  {
  }

  // ---------------------------------------------------------------- DATA

  function EncodeData(sequence: u16, payload: seq<byte>): (p: seq<byte>)
    ensures |p| == SequencedHeaderLength + |payload|
  {
    BigEndian16(DataChannelMessage) + BigEndian16(sequence) + payload
  }

  /** Reads a DATA packet; None for a short packet or one of another type. */
  function DecodeData(p: seq<byte>): (r: Option<DataPacket>)
    ensures r.Some? ==> |p| >= SequencedHeaderLength && ReadBigEndian16(p) == DataChannelMessage
    ensures r.Some? ==> r.value.payload == p[SequencedHeaderLength..]
    ensures |p| >= SequencedHeaderLength && ReadBigEndian16(p) == DataChannelMessage ==> r.Some?
  {
    if |p| < SequencedHeaderLength || ReadBigEndian16(p) != DataChannelMessage then None
    else Some(DataPacket(ReadBigEndian16(p[2..]), p[4..]))
  }

  lemma DataRoundTrip(sequence: u16, payload: seq<byte>)
    ensures DecodeData(EncodeData(sequence, payload)) == Some(DataPacket(sequence, payload))
  {
    var p := EncodeData(sequence, payload);
    BigEndian16RoundTrip(DataChannelMessage, BigEndian16(sequence) + payload);
    assert p == BigEndian16(DataChannelMessage) + (BigEndian16(sequence) + payload);
    assert p[2..] == BigEndian16(sequence) + payload;
    BigEndian16RoundTrip(sequence, payload);
    assert p[4..] == payload;
  }

  /** Decoding loses nothing: a packet that decodes is the encoding of what it decodes to. */
  lemma DataDecodeInverse(p: seq<byte>)
    requires DecodeData(p).Some?
    ensures EncodeData(DecodeData(p).value.sequence, DecodeData(p).value.payload) == p
  {
    var d := DecodeData(p).value;
    assert BigEndian16(ReadBigEndian16(p)) == p[..2];
    assert BigEndian16(d.sequence) == p[2..][..2] == p[2..4];
    assert p == p[..2] + p[2..4] + p[4..];
  }

  // ---------------------------------------------------------- FRAGMENTED

  function EncodeFragment(f: Fragment): (p: seq<byte>)
    ensures |p| == SequencedHeaderLength + (if f.totalLength.Some? then TotalLengthFieldLength else 0) + |f.chunk|
  {
    BigEndian16(FragmentedDataChannelMessage) + BigEndian16(f.sequence)
      + (match f.totalLength case Some(n) => BigEndian32(n) case None => [])
      + f.chunk
  }

  /** Reads a FRAGMENTED packet; `first` tells whether it opens a message, so
      whether the total-length prefix is expected. */
  function DecodeFragment(p: seq<byte>, first: bool): (r: Option<Fragment>)
    ensures r.Some? ==> r.value.totalLength.Some? == first
  {
    var headerLength := SequencedHeaderLength + if first then TotalLengthFieldLength else 0;
    if |p| < headerLength || ReadBigEndian16(p) != FragmentedDataChannelMessage then None
    else Some(Fragment(ReadBigEndian16(p[2..]),
                       if first then Some(ReadBigEndian32(p[4..])) else None,
                       p[headerLength..]))
  }

  lemma FragmentRoundTrip(f: Fragment)
    ensures DecodeFragment(EncodeFragment(f), f.totalLength.Some?) == Some(f)
  {
    var p := EncodeFragment(f);
    var prefix := match f.totalLength case Some(n) => BigEndian32(n) case None => [];
    assert p == BigEndian16(FragmentedDataChannelMessage) + (BigEndian16(f.sequence) + prefix + f.chunk);
    BigEndian16RoundTrip(FragmentedDataChannelMessage, BigEndian16(f.sequence) + prefix + f.chunk);
    assert p[2..] == BigEndian16(f.sequence) + (prefix + f.chunk);
    BigEndian16RoundTrip(f.sequence, prefix + f.chunk);
    assert p[4..] == prefix + f.chunk;
    if f.totalLength.Some? {
      BigEndian32RoundTrip(f.totalLength.value, f.chunk);
      assert p[8..] == f.chunk;
    } else {
      assert p[4..] == f.chunk;
    }
  }

  lemma FragmentDecodeInverse(p: seq<byte>, first: bool)
    requires DecodeFragment(p, first).Some?
    ensures EncodeFragment(DecodeFragment(p, first).value) == p
  {
    var f := DecodeFragment(p, first).value;
    assert BigEndian16(ReadBigEndian16(p)) == p[..2];
    assert BigEndian16(f.sequence) == p[2..][..2] == p[2..4];
    if first {
      assert BigEndian32(f.totalLength.value) == p[4..][..4] == p[4..8];
      assert p == p[..2] + p[2..4] + p[4..8] + p[8..];
    } else {
      assert p == p[..2] + p[2..4] + p[4..];
    }
  }

  // ------------------------------------------------------- chunk rule

  /** The bytes one sequenced packet may carry after its header, for a peer
      whose receive buffer holds `receiveBufferSize` bytes, a trailer of
      `crcLength` bytes and `reserve` further bytes of per-packet overhead
      (the header among them). */
  function MaxDataLength(receiveBufferSize: nat, crcLength: nat, reserve: nat): int
  {
    receiveBufferSize - crcLength - reserve
  }

  /** All chunks joined back together, in order. */
  function Concat(chunks: seq<seq<byte>>): (s: seq<byte>)
  {
    if chunks == [] then [] else chunks[0] + Concat(chunks[1..])
  }

  lemma ConcatPrepend(c: seq<byte>, rest: seq<seq<byte>>)
    ensures Concat([c] + rest) == c + Concat(rest)
  {
    assert ([c] + rest)[1..] == rest;
  }

  /** Cuts `s` into consecutive chunks of `capacity` bytes; only the last may be shorter. */
  function SplitRest(s: seq<byte>, capacity: nat): (chunks: seq<seq<byte>>)
    requires capacity > 0
    ensures Concat(chunks) == s
    ensures forall i :: 0 <= i < |chunks| ==> 0 < |chunks[i]| <= capacity
    ensures forall i :: 0 <= i < |chunks| - 1 ==> |chunks[i]| == capacity
    decreases |s|
  {
    if |s| == 0 then []
    else
      var k := if |s| < capacity then |s| else capacity;
      var rest := SplitRest(s[k..], capacity);
      ConcatPrepend(s[..k], rest);
      [s[..k]] + rest
  }

  /** The chunks of an oversized message: the first leaves room for the
      total-length prefix, every later one fills a whole packet. */
  function SplitMessage(message: seq<byte>, maxData: int): (chunks: seq<seq<byte>>)
    requires TotalLengthFieldLength < maxData < |message|
    ensures |chunks| >= 2 && |chunks[0]| == maxData - TotalLengthFieldLength
    ensures forall i :: 1 <= i < |chunks| ==> 0 < |chunks[i]| <= maxData
    ensures forall i :: 1 <= i < |chunks| - 1 ==> |chunks[i]| == maxData
    ensures Concat(chunks) == message
  {
    var k := maxData - TotalLengthFieldLength;
    var rest := SplitRest(message[k..], maxData);
    ConcatPrepend(message[..k], rest);
    assert message[..k] + message[k..] == message;
    [message[..k]] + rest
  }

  /** The fragments of an oversized message, numbered from `sequence` on. */
  function FragmentsOf(sequence: u16, message: seq<byte>, maxData: int): (fs: seq<Fragment>)
    requires TotalLengthFieldLength < maxData < |message|
  {
    var chunks := SplitMessage(message, maxData);
    seq(|chunks|, i requires 0 <= i < |chunks| =>
      Fragment(NextSequence(sequence, i),
               if i == 0 then Some(|message| % 0x1_0000_0000) else None,
               chunks[i]))
  }

  /** What SendMessage frames for `message` when the next sequence number is
      `sequence`: one DATA packet when the message fits, its fragments when
      it does not, and None when packets are too small to carry the first
      fragment's length prefix and any payload together. */
  function PacketsFor(sequence: u16, message: seq<byte>, maxData: int): (r: Option<seq<seq<byte>>>)
  {
    if |message| <= maxData then Some([EncodeData(sequence, message)])
    else if maxData <= TotalLengthFieldLength then None
    else Some(FragmentPackets(FragmentsOf(sequence, message, maxData)))
  }

  function FragmentPackets(fs: seq<Fragment>): seq<seq<byte>>
  {
    seq(|fs|, i requires 0 <= i < |fs| => EncodeFragment(fs[i]))
  }

  // -------------------------------------------------- what the framing promises

  /** A message that fits goes out as exactly one DATA packet that decodes
      back to it; one that does not goes out as two or more fragments. */
  lemma FramingChoice(sequence: u16, message: seq<byte>, maxData: int)
    requires PacketsFor(sequence, message, maxData).Some?
    ensures var ps := PacketsFor(sequence, message, maxData).value;
      (|message| <= maxData <==> |ps| == 1) &&
      (|message| <= maxData ==> DecodeData(ps[0]) == Some(DataPacket(sequence, message)))
  {
    if |message| <= maxData {
      DataRoundTrip(sequence, message);
    }
  }

  /** Every packet leaves room for the trailer and the reserved overhead:
      header plus data never exceed `maxData` + header bytes. */
  lemma PacketsFit(sequence: u16, message: seq<byte>, receiveBufferSize: nat, crcLength: nat, reserve: nat)
    requires reserve >= SequencedHeaderLength
    requires PacketsFor(sequence, message, MaxDataLength(receiveBufferSize, crcLength, reserve)).Some?
    ensures forall p :: p in PacketsFor(sequence, message, MaxDataLength(receiveBufferSize, crcLength, reserve)).value ==>
                |p| + crcLength <= receiveBufferSize
  {
    var maxData := MaxDataLength(receiveBufferSize, crcLength, reserve);
    var ps := PacketsFor(sequence, message, maxData).value;
    if |message| > maxData {
      var fs := FragmentsOf(sequence, message, maxData);
      forall p | p in ps ensures |p| + crcLength <= receiveBufferSize {
        var i :| 0 <= i < |ps| && ps[i] == p;
        assert p == EncodeFragment(fs[i]);
      }
    }
  }

  /** The chunks the fragments carry, in order. */
  function ChunksOf(fs: seq<Fragment>): seq<seq<byte>>
  {
    seq(|fs|, i requires 0 <= i < |fs| => fs[i].chunk)
  }

  /** Each fragment packet decodes, the first one with its length prefix, to
      the fragment it was built from. */
  lemma FragmentPacketsDecode(sequence: u16, message: seq<byte>, maxData: int)
    requires TotalLengthFieldLength < maxData < |message|
    ensures var ps := PacketsFor(sequence, message, maxData).value;
      var fs := FragmentsOf(sequence, message, maxData);
      |ps| == |fs| &&
      forall i :: 0 <= i < |ps| ==> DecodeFragment(ps[i], i == 0) == Some(fs[i])
  {
    var fs := FragmentsOf(sequence, message, maxData);
    forall i | 0 <= i < |fs| ensures DecodeFragment(EncodeFragment(fs[i]), i == 0) == Some(fs[i]) {
      FragmentRoundTrip(fs[i]);
    }
  }

  /** Reassembly: the fragments are numbered consecutively, the first
      announces the message length, and their chunks joined in order are the
      original message. */
  lemma FragmentsReassemble(sequence: u16, message: seq<byte>, maxData: int)
    requires TotalLengthFieldLength < maxData < |message| < 0x1_0000_0000
    ensures var fs := FragmentsOf(sequence, message, maxData);
      && |fs| >= 2
      && (forall i :: 0 <= i < |fs| ==> fs[i].sequence == NextSequence(sequence, i))
      && fs[0].totalLength == Some(|message|)
      && (forall i :: 1 <= i < |fs| ==> fs[i].totalLength.None?)
      && Concat(ChunksOf(fs)) == message
  {
    var fs := FragmentsOf(sequence, message, maxData);
    assert ChunksOf(fs) == SplitMessage(message, maxData);
  }
}
