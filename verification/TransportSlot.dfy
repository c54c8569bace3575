/** Envelope senders and the transport slot that clones of a sender share. */
module TransportSlots {
  import opened Wrappers

  /** An envelope: its items; a client report is one of them. */
  type Envelope = seq<Item>

  datatype Item = Content(id: nat) | Report(losses: nat)

  /** A transport: what it was given so far, and whether it was told to shut down. */
  class Transport {
    var received: seq<Envelope>
    var down: bool

    constructor ()
      ensures received == [] && !down
    {
      received, down := [], false;
    }

    method SendEnvelope(envelope: Envelope)
      modifies this
      ensures received == old(received) + [envelope] && down == old(down)
    {
      received := received + [envelope];
    }

    method Shutdown()
      modifies this
      ensures down && received == old(received)
    {
      down := true;
    }
  }

  /** A slot that may hold a transport; clones of a slot are references to the same object. */
  class TransportSlot {
    var inner: Transport?

    constructor (transport: Transport?)
      ensures inner == transport
    {
      inner := transport;
    }

    /** A new slot around the same transport, or this very slot when it is empty. */
    method CloneIntoNewSlot() returns (slot: TransportSlot)
      ensures inner != null ==> fresh(slot) && slot.inner == inner
      ensures inner == null ==> slot == this
    {
      if inner != null {
        slot := new TransportSlot(inner);
      } else {
        slot := this;
      }
    }

    /** Sends the envelope if there is one and the slot is occupied. */
    method SendEnvelope(envelope: Option<Envelope>)
      modifies inner
      ensures inner != null ==> inner.down == old(inner.down)
      ensures inner != null ==>
                inner.received == old(inner.received) + if envelope.Some? then [envelope.value] else []
    {
      if inner != null && envelope.Some? {
        inner.SendEnvelope(envelope.value);
      }
    }

    /** Empties the slot and shuts its transport down. */
    method Shutdown()
      modifies this, inner
      ensures inner == null
      ensures old(inner) != null ==> old(inner).down && old(inner).received == old(inner.received)
    {
      var transport := inner;
      inner := null;
      if transport != null {
        transport.Shutdown();
      }
    }
  }

  /** The losses recorded and not yet reported; clones of a sender share them. */
  class ClientReportAggregator {
    var pending: nat

    constructor ()
      ensures pending == 0
    {
      pending := 0;
    }

    method RecordLoss(quantity: nat)
      modifies this
      ensures pending == old(pending) + quantity
    {
      pending := pending + quantity;
    }

    method TakePendingReport() returns (report: Option<Item>)
      modifies this
      ensures pending == 0
      ensures report == if old(pending) == 0 then None else Some(Report(old(pending)))
    {
      report := if pending == 0 then None else Some(Report(pending));
      pending := 0;
    }
  }

  /** A sender; a clone has the same slot and the same aggregator. */
  datatype EnvelopeSender = EnvelopeSender(slot: TransportSlot, aggregator: ClientReportAggregator)

  /**
   Sends what the builder makes, pending losses attached. The builder is not run when the slot is empty,
   and the pending losses stay pending unless an envelope really goes out.
   */
  method SendEnvelopeWith(sender: EnvelopeSender, builder: () -> Option<Envelope>)
    modifies sender.slot.inner, sender.aggregator
    ensures sender.slot.inner != null ==> sender.slot.inner.down == old(sender.slot.inner.down)
    ensures var transport := sender.slot.inner;
            var envelope := builder();
            var losses := old(sender.aggregator.pending);
            if transport == null || envelope.None? then
              && sender.aggregator.pending == losses
              && (transport != null ==> transport.received == old(transport.received))
            else
              && sender.aggregator.pending == 0
              && transport.received
                 == old(transport.received) + [envelope.value + if losses == 0 then [] else [Report(losses)]]
  {
    if sender.slot.inner == null {
      return;
    }
    var envelope := builder();
    if envelope.None? {
      return;
    }
    var report := sender.aggregator.TakePendingReport();
    var full := if report.Some? then envelope.value + [report.value] else envelope.value;
    assert report.None? ==> full == envelope.value + [];
    sender.slot.SendEnvelope(Some(full));
  }

  /** A sender for a cloned client: its own slot, the same transport and the same pending losses. */
  method CloneWithNewTransportSlot(sender: EnvelopeSender) returns (clone: EnvelopeSender)
    ensures clone.aggregator == sender.aggregator
    ensures sender.slot.inner != null ==> fresh(clone.slot) && clone.slot.inner == sender.slot.inner
    ensures sender.slot.inner == null ==> clone.slot == sender.slot
  {
    var slot := sender.slot.CloneIntoNewSlot();
    clone := EnvelopeSender(slot, sender.aggregator);
  }

  /**
   Closing one client empties the slot for every clone of its sender, while a client cloned before keeps
   its slot; what that one sends still reaches the transport, and what the closed one sends does not.
   */
  method CloseOneOfTwoClients(sender: EnvelopeSender, first: Envelope, second: Envelope)
    requires sender.slot.inner != null
    modifies sender.slot, sender.slot.inner, sender.aggregator
    ensures sender.slot.inner == null
    ensures old(sender.slot.inner).down
    ensures old(sender.aggregator.pending) == 0 ==>
              old(sender.slot.inner).received == old(sender.slot.inner.received) + [second]
  {
    var transport := sender.slot.inner;
    var clonedClient := CloneWithNewTransportSlot(sender);
    var clonedSender := sender;
    sender.slot.Shutdown();
    SendEnvelopeWith(clonedSender, () => Some(first));
    assert transport.received == old(transport.received);
    SendEnvelopeWith(clonedClient, () => Some(second));
    assert second + [] == second;
  }
}
