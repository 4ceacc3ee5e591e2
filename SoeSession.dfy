/** The send side of an SOE session: every outgoing message is sequenced,
    framed as one DATA packet or as FRAGMENTED packets, handed to the
    service, and kept until acknowledged. */
module SoeSession {
  import opened Bytes
  import opened Wrappers
  import opened SoeFraming

  /** A packet kept for resending, under the sequence number it went out with. */
  datatype SentPacket = SentPacket(sequence: u16, packet: seq<byte>)

  /** How HandleMessage ended; Failed stands for an exception thrown out of it. */
  datatype HandleOutcome = Handled | Failed

  /** The store that the packets `ps` leave behind when they are sent with
      consecutive sequence numbers from `start` on. */
  function Stored(start: u16, ps: seq<seq<byte>>): seq<SentPacket>
  {
    seq(|ps|, i requires 0 <= i < |ps| => SentPacket(NextSequence(start, i), ps[i]))
  }

  lemma StoredAppend(start: u16, ps: seq<seq<byte>>, p: seq<byte>)
    ensures Stored(start, ps + [p]) == Stored(start, ps) + [SentPacket(NextSequence(start, |ps|), p)]
  {
  }

  class Session {
    /** The remote endpoint. */
    const remoteAddress: string
    const remotePort: u16
    /** Per-packet bytes kept free besides the integrity trailer, the header among them. */
    const reserve: nat

    /** The sequence number the next packet goes out with. */
    var serverSequence: u16
    var receiveBufferSize: nat
    var crcLength: nat
    /** Copies of sent packets, oldest first, kept for resending. */
    var unacknowledged: seq<SentPacket>
    /** Every packet handed to the service, in order. */
    var outbound: seq<seq<byte>>
    /** Every inbound message given to HandleMessage, in order. */
    var received: seq<seq<byte>>

    /** No acknowledgment is processed on the send side, so every packet sent
        is still stored, under the sequence number it was sent with; sequence
        numbers count the packets sent, modulo 2^16. */
    ghost predicate Valid()
      reads this
    {
      && unacknowledged == Stored(0, outbound)
      && serverSequence == NextSequence(0, |outbound|)
    }

    /** What one packet may carry after its header. */
    function MaxData(): int
      reads this
    {
      MaxDataLength(receiveBufferSize, crcLength, reserve)
    }

    constructor (remoteAddress: string, remotePort: u16, receiveBufferSize: nat, crcLength: nat, reserve: nat)
      ensures Valid()
      ensures this.remoteAddress == remoteAddress && this.remotePort == remotePort && this.reserve == reserve
      ensures this.receiveBufferSize == receiveBufferSize && this.crcLength == crcLength
      ensures serverSequence == 0 && unacknowledged == [] && outbound == [] && received == []
    {
      this.remoteAddress := remoteAddress;
      this.remotePort := remotePort;
      this.reserve := reserve;
      this.receiveBufferSize := receiveBufferSize;
      this.crcLength := crcLength;
      serverSequence := 0;
      unacknowledged := [];
      outbound := [];
      received := [];
    }

    method SetReceiveBufferSize(size: nat)
      modifies this`receiveBufferSize
      ensures receiveBufferSize == size
    {
      receiveBufferSize := size;
    }

    method SetCrcLength(length: nat)
      modifies this`crcLength
      ensures crcLength == length
    {
      crcLength := length;
    }

    /** Sends one packet under the current sequence number and keeps a copy. */
    method SendSequenced(packet: seq<byte>)
      modifies this`serverSequence, this`unacknowledged, this`outbound
      ensures old(Valid()) ==> Valid()
      ensures outbound == old(outbound) + [packet]
      ensures unacknowledged == old(unacknowledged) + [SentPacket(old(serverSequence), packet)]
      ensures serverSequence == NextSequence(old(serverSequence), 1)
    {
      StoredAppend(0, outbound, packet);
      NextSequenceCompose(0, |outbound|, 1);
      outbound := outbound + [packet];
      unacknowledged := unacknowledged + [SentPacket(serverSequence, packet)];
      serverSequence := NextSequence(serverSequence, 1);
    }

    /** Frames and sends `message`. Fails, changing nothing, only when the
        message must be fragmented and packets are too small to hold the
        first fragment's length prefix and a payload byte. */
    method SendMessage(message: seq<byte>) returns (ok: bool)
      modifies this`serverSequence, this`unacknowledged, this`outbound
      ensures old(Valid()) ==> Valid()
      ensures ok == PacketsFor(old(serverSequence), message, MaxData()).Some?
      ensures ok ==>
        var ps := PacketsFor(old(serverSequence), message, MaxData()).value;
        && outbound == old(outbound) + ps
        && unacknowledged == old(unacknowledged) + Stored(old(serverSequence), ps)
        && serverSequence == NextSequence(old(serverSequence), |ps|)
      ensures !ok ==> outbound == old(outbound) && unacknowledged == old(unacknowledged)
                      && serverSequence == old(serverSequence)
    {
      var maxData := MaxDataLength(receiveBufferSize, crcLength, reserve);
      if |message| <= maxData {
        SendSequenced(EncodeData(serverSequence, message));
        return true;
      }
      if maxData <= TotalLengthFieldLength {
        return false;
      }
      SendFragments(message, maxData);
      return true;
    }

    /** Sends the fragments of an oversized message, one sequence number each. */
    method SendFragments(message: seq<byte>, maxData: int)
      requires TotalLengthFieldLength < maxData < |message|
      modifies this`serverSequence, this`unacknowledged, this`outbound
      ensures old(Valid()) ==> Valid()
      ensures var ps := FragmentPackets(FragmentsOf(old(serverSequence), message, maxData));
        && outbound == old(outbound) + ps
        && unacknowledged == old(unacknowledged) + Stored(old(serverSequence), ps)
        && serverSequence == NextSequence(old(serverSequence), |ps|)
    {
      var chunks := SplitMessage(message, maxData);
      ghost var fs := FragmentsOf(serverSequence, message, maxData);
      ghost var ps := FragmentPackets(fs);
      var i := 0;
      while i < |chunks|
        invariant 0 <= i <= |chunks| == |ps| == |fs|
        invariant old(Valid()) ==> Valid()
        invariant outbound == old(outbound) + ps[..i]
        invariant unacknowledged == old(unacknowledged) + Stored(old(serverSequence), ps[..i])
        invariant serverSequence == NextSequence(old(serverSequence), i)
      {
        var total := if i == 0 then Some(|message| % 0x1_0000_0000) else None;
        assert Fragment(serverSequence, total, chunks[i]) == fs[i];
        SendSequenced(EncodeFragment(Fragment(serverSequence, total, chunks[i])));
        assert ps[..i + 1] == ps[..i] + [ps[i]];
        StoredAppend(old(serverSequence), ps[..i], ps[i]);
        NextSequenceCompose(old(serverSequence), i, 1);
        i := i + 1;
      }
      assert ps[..i] == ps;
    }

    /** The stored packets, oldest first. */
    method GetUnacknowledgedMessages() returns (messages: seq<seq<byte>>)
      ensures |messages| == |unacknowledged|
      ensures forall i :: 0 <= i < |messages| ==> messages[i] == unacknowledged[i].packet
    {
      messages := [];
      var i := 0;
      while i < |unacknowledged|
        invariant 0 <= i <= |unacknowledged| && |messages| == i
        invariant forall k :: 0 <= k < i ==> messages[k] == unacknowledged[k].packet
      {
        messages := messages + [unacknowledged[i].packet];
        i := i + 1;
      }
    }

    /** Inbound protocol processing. Its decoding, acknowledgment,
        retransmission and reassembly are not part of this model: it may
        change any of the session's state, all that is kept is that the
        message reached the session, and the outcome may be either. */
    method HandleMessage(message: seq<byte>) returns (outcome: HandleOutcome)
      modifies this
      ensures received == old(received) + [message]
    {
      received := received + [message];
      outcome :| true;
    }
  }
}
