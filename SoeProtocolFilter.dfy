/** The inbound pipeline stage that hands each packet's message to the
    session it arrived on. */
module SoeProtocolFilter {
  import opened Bytes
  import opened SoeSession

  /** One inbound packet: its message and the session it belongs to. */
  class Packet {
    const session: Session
    const message: seq<byte>

    constructor (session: Session, message: seq<byte>)
      ensures this.session == session && this.message == message
    {
      this.session := session;
      this.message := message;
    }
  }

  /** The filter has no state of its own. */
  class ProtocolFilter {
    constructor ()
    {
    }

    /** A null packet is ignored. Otherwise the owning session handles the
        message exactly once, and a failure there is absorbed: the filter
        returns normally on either outcome, and that session is the only
        object it may change. */
    method Apply(packet: Packet?)
      modifies if packet == null then {} else {packet.session}
      ensures packet != null ==> packet.session.received == old(packet.session.received) + [packet.message]
    {
      if packet == null {
        return;
      }
      var outcome := packet.session.HandleMessage(packet.message);
      match outcome {
        case Handled =>
        case Failed =>
          // the source logs the failure and carries on
      }
    }
  }
}
