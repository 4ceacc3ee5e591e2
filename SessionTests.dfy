/** The Session unit tests as client methods and lemmas: the buffers the
    tests build, and what each test asserts about a session, proved from the
    Session contracts alone. Plain buffer writes are in host
    (little-endian) order; hostToBig'd ones end up big-endian. */
module SessionTests {
  import opened Bytes
  import opened Wrappers
  import opened SoeFraming
  import opened SoeSession

  /** The test endpoint 127.0.0.1:1000. */
  const TestAddress: string := "127.0.0.1"
  const TestPort: u16 := 1000

  /** The per-packet reserve the fragmented-packet fixture implies
      (see FixturePinsReserve). */
  const FixtureReserve: nat := 5

  /** `count` host-order copies of the 32-bit value `x`, as written by a loop
      of `write<uint32_t>(x)`. */
  function RepeatHost32(x: u32, count: nat): (b: seq<byte>)
    ensures |b| == 4 * count
  {
    if count == 0 then [] else HostOrder32(x) + RepeatHost32(x, count - 1)
  }

  /** A u16 1 followed by the u32 0xDEADBABE: six bytes. */
  function SimpleMessage(): (b: seq<byte>)
    ensures |b| == 6
  {
    HostOrder16(1) + HostOrder32(0xDEADBABE)
  }

  function SimpleDataChannelPacket(sequence: u16): (b: seq<byte>)
    ensures |b| == 10
  {
    BigEndian16(0x09) + BigEndian16(sequence) + SimpleMessage()
  }

  /** Six u32 fives: 24 bytes. */
  function SimpleFragmentedMessage(): (b: seq<byte>)
    ensures |b| == 24
  {
    RepeatHost32(5, 6)
  }

  /** The first fragment of SimpleFragmentedMessage: its header, the total
      length 24, and the first four u32 fives (16 bytes). */
  function SimpleFragmentedPacket(sequence: u16): (b: seq<byte>)
    ensures |b| == 24
  {
    BigEndian16(0x0D) + BigEndian16(sequence) + BigEndian32(24) + RepeatHost32(5, 4)
  }

  lemma {:induction false} RepeatHost32Split(x: u32, m: nat, n: nat)
    ensures RepeatHost32(x, m + n) == RepeatHost32(x, m) + RepeatHost32(x, n)
  {
    if m > 0 {
      RepeatHost32Split(x, m - 1, n);
    }
  }

  /** The DATA packet fixture is what the framing builds for SimpleMessage,
      and it decodes back to the same sequence number and message. */
  lemma SimpleDataChannelPacketIsFramed(sequence: u16)
    ensures EncodeData(sequence, SimpleMessage()) == SimpleDataChannelPacket(sequence)
    ensures DecodeData(SimpleDataChannelPacket(sequence)) == Some(DataPacket(sequence, SimpleMessage()))
  {
    DataRoundTrip(sequence, SimpleMessage());
  }

  /** Framing SimpleFragmentedMessage for a peer with a 27-byte receive
      buffer and a 2-byte trailer gives two packets, the first being the
      fragmented-packet fixture, exactly when the reserve is 5. */
  lemma FixturePinsReserve(sequence: u16, reserve: nat)
    ensures var r := PacketsFor(sequence, SimpleFragmentedMessage(), MaxDataLength(27, 2, reserve));
      (r.Some? && |r.value| == 2 && r.value[0] == SimpleFragmentedPacket(sequence)) <==> reserve == FixtureReserve
  {
    var message := SimpleFragmentedMessage();
    var maxData := MaxDataLength(27, 2, reserve);
    var r := PacketsFor(sequence, message, maxData);
    if reserve == FixtureReserve {
      FixtureFraming(sequence);
    } else if r.Some? && |r.value| == 2 {
      assert |message| > maxData;
      assert |r.value[0]| == maxData + SequencedHeaderLength;
      assert |r.value[0]| != |SimpleFragmentedPacket(sequence)|;
    }
  }

  /** With the fixture's reserve, the 24-byte message splits as 16 + 8. */
  lemma FixtureFraming(sequence: u16)
    ensures var r := PacketsFor(sequence, SimpleFragmentedMessage(), MaxDataLength(27, 2, FixtureReserve));
      r.Some? && |r.value| == 2 && r.value[0] == SimpleFragmentedPacket(sequence)
  {
    var message := SimpleFragmentedMessage();
    var maxData := MaxDataLength(27, 2, FixtureReserve);
    assert maxData == 20;
    var chunks := SplitMessage(message, maxData);
    RepeatHost32Split(5, 4, 2);
    assert message == RepeatHost32(5, 4) + RepeatHost32(5, 2);
    assert chunks[0] == message[..16] == RepeatHost32(5, 4);
    assert |chunks| == 2 by {
      if |chunks| > 2 {
        ConcatLength(chunks);
      }
    }
    var fs := FragmentsOf(sequence, message, maxData);
    assert fs[0] == Fragment(sequence, Some(24), RepeatHost32(5, 4));
    var ps := FragmentPackets(fs);
    assert |ps| == 2 && ps[0] == EncodeFragment(fs[0]);
  }

  /** Under the same configuration, an 8-byte message still fits one DATA
      packet, which decodes back to it. */
  lemma EightBytesFitOnePacket(sequence: u16, message: seq<byte>)
    requires |message| == 8
    ensures var r := PacketsFor(sequence, message, MaxDataLength(27, 2, FixtureReserve));
      r.Some? && |r.value| == 1 && DecodeData(r.value[0]) == Some(DataPacket(sequence, message))
  {
    FramingChoice(sequence, message, MaxDataLength(27, 2, FixtureReserve));
  }

  lemma ConcatLength(chunks: seq<seq<byte>>)
    requires |chunks| >= 3
    ensures |Concat(chunks)| >= |chunks[0]| + |chunks[1]| + |chunks[2]|
  {
    assert Concat(chunks) == chunks[0] + Concat(chunks[1..]);
    assert Concat(chunks[1..]) == chunks[1] + Concat(chunks[2..]);
    assert Concat(chunks[2..]) == chunks[2] + Concat(chunks[3..]);
  }

  // --------------------------------------------------------------- the tests

  /** NewSessionHasZeroSendSequence. The defaults for the receive buffer
      size and trailer length come from code outside this model. */
  method NewSessionHasZeroSendSequence(receiveBufferSize: nat, crcLength: nat) returns (sequence: u16)
    ensures sequence == 0
  {
    var session := new Session(TestAddress, TestPort, receiveBufferSize, crcLength, FixtureReserve);
    sequence := session.serverSequence;
  }

  /** SendingDataChannelMessageIncreasesServerSequence: after the i-th send of
      SimpleMessage, the server sequence is i. */
  method SendingDataChannelMessageIncreasesServerSequence(receiveBufferSize: nat, crcLength: nat)
    returns (sequences: seq<u16>)
    requires |SimpleMessage()| <= MaxDataLength(receiveBufferSize, crcLength, FixtureReserve)
    ensures sequences == [1, 2, 3]
  {
    var session := new Session(TestAddress, TestPort, receiveBufferSize, crcLength, FixtureReserve);
    sequences := [];
    var i := 1;
    while i <= 3
      invariant 1 <= i <= 4
      invariant session.Valid() && session.MaxData() == MaxDataLength(receiveBufferSize, crcLength, FixtureReserve)
      invariant session.serverSequence == i - 1
      invariant |sequences| == i - 1 && forall k :: 0 <= k < i - 1 ==> sequences[k] == k + 1
    {
      var _ := session.SendMessage(SimpleMessage());
      sequences := sequences + [session.serverSequence];
      i := i + 1;
    }
  }

  /** DataChannelMessagesAreSentViaSoeService and
      DataChannelMessagesAreWrappedInDataHeaderWhenSent: one send of
      SimpleMessage hands exactly one packet to the service, the DATA
      packet fixture with sequence 0. */
  method DataChannelMessagesAreSentViaSoeService(receiveBufferSize: nat, crcLength: nat)
    returns (sent: seq<seq<byte>>)
    requires |SimpleMessage()| <= MaxDataLength(receiveBufferSize, crcLength, FixtureReserve)
    ensures sent == [SimpleDataChannelPacket(0)]
  {
    var session := new Session(TestAddress, TestPort, receiveBufferSize, crcLength, FixtureReserve);
    var _ := session.SendMessage(SimpleMessage());
    sent := session.outbound;
  }

  /** DataChannelMessagesAreStoredForResending: after three sends, three
      packets are kept, the i-th being the DATA packet with sequence i. */
  method DataChannelMessagesAreStoredForResending(receiveBufferSize: nat, crcLength: nat)
    returns (stored: seq<seq<byte>>)
    requires |SimpleMessage()| <= MaxDataLength(receiveBufferSize, crcLength, FixtureReserve)
    ensures |stored| == 3
    ensures forall k :: 0 <= k < 3 ==> stored[k] == SimpleDataChannelPacket(k)
  {
    var session := new Session(TestAddress, TestPort, receiveBufferSize, crcLength, FixtureReserve);
    var i := 1;
    while i <= 3
      invariant 1 <= i <= 4
      invariant session.Valid() && session.MaxData() == MaxDataLength(receiveBufferSize, crcLength, FixtureReserve)
      invariant |session.outbound| == i - 1 && session.serverSequence == i - 1
      invariant forall k :: 0 <= k < i - 1 ==> session.outbound[k] == SimpleDataChannelPacket(k)
    {
      ghost var before := session.outbound;
      SimpleDataChannelPacketIsFramed(session.serverSequence);
      assert PacketsFor(session.serverSequence, SimpleMessage(), session.MaxData()) == Some([SimpleDataChannelPacket(i - 1)]);
      var _ := session.SendMessage(SimpleMessage());
      assert session.outbound == before + [SimpleDataChannelPacket(i - 1)];
      i := i + 1;
    }
    stored := session.GetUnacknowledgedMessages();
  }

  /** LargeDataChannelMessagesAreWrappedInFragmentedHeaderWhenSent: with a
      27-byte receive buffer and a 2-byte trailer, the 24-byte message goes
      out as two packets, the first being the fragmented-packet fixture. */
  method LargeDataChannelMessagesAreWrappedInFragmentedHeaderWhenSent(receiveBufferSize: nat, crcLength: nat)
    returns (sent: seq<seq<byte>>)
    ensures |sent| == 2 && sent[0] == SimpleFragmentedPacket(0)
  {
    var session := new Session(TestAddress, TestPort, receiveBufferSize, crcLength, FixtureReserve);
    session.SetReceiveBufferSize(27);
    session.SetCrcLength(2);
    FixturePinsReserve(0, FixtureReserve);
    var _ := session.SendMessage(SimpleFragmentedMessage());
    sent := session.outbound;
  }
}
