/** Transactions and spans: cloned handles on shared state, finished once, capped in the spans they keep. */
module Transactions {
  import opened Wrappers

  const MAX_SPANS: nat := 1000

  type Id = nat

  datatype SpanData = SpanData(traceId: Id, spanId: Id, parent: Option<Id>, finished: bool)

  /** A child is in its parent's trace and names its parent. */
  function Child(parent: SpanData, spanId: Id): SpanData {
    SpanData(parent.traceId, spanId, Some(parent.spanId), false)
  }

  /** One more span fits than the limit says; the next ones are lost. */
  function Stored<T>(kept: seq<T>, span: T): seq<T> {
    if |kept| <= MAX_SPANS then kept + [span] else kept
  }

  function Overflow<T>(kept: seq<T>): nat {
    if |kept| <= MAX_SPANS then 0 else 1
  }

  /** The client, as far as it counts: transactions sent with their spans, and what it recorded as lost. */
  class Client {
    var sent: seq<seq<SpanData>>
    var lostTransactions: nat
    var lostSpans: nat

    constructor ()
      ensures sent == [] && lostTransactions == lostSpans == 0
    {
      sent, lostTransactions, lostSpans := [], 0, 0;
    }

    /** A lost transaction counts as a span too, next to the spans it holds. */
    method RecordLostTransaction(spans: seq<SpanData>)
      modifies this
      ensures sent == old(sent) && lostTransactions == old(lostTransactions) + 1
      ensures lostSpans == old(lostSpans) + |spans| + 1
    {
      lostTransactions := lostTransactions + 1;
      lostSpans := lostSpans + |spans| + 1;
    }

    method RecordLostSpan()
      modifies this
      ensures sent == old(sent) && lostTransactions == old(lostTransactions) && lostSpans == old(lostSpans) + 1
    {
      lostSpans := lostSpans + 1;
    }

    method SendEnvelope(spans: seq<SpanData>)
      modifies this
      ensures sent == old(sent) + [spans]
      ensures lostTransactions == old(lostTransactions) && lostSpans == old(lostSpans)
    {
      sent := sent + [spans];
    }
  }

  /** What clones of a transaction, and its spans, share; `spans` is absent once the transaction is finished. */
  class TransactionInner {
    var client: Client?
    const sampled: bool
    const context: SpanData   // its own trace id, span id and parent
    var spans: Option<seq<SpanData>>

    /** A transaction keeps no spans unless it has a client. */
    ghost predicate Valid()
      reads this
    {
      && (spans.Some? ==> client != null)
      && (spans.Some? ==> |spans.value| <= MAX_SPANS + 1)
    }

    constructor (client: Client?, sampled: bool, context: SpanData)
      ensures Valid() && this.client == client && this.sampled == sampled && this.context == context
      ensures spans == if client == null then None else Some([])
    {
      this.client, this.sampled, this.context := client, sampled, context;
      spans := if client == null then None else Some([]);
    }

    /** Takes the transaction: sends it if it is sampled, records it as lost if it is not. */
    method Finish()
      requires Valid()
      modifies this, client
      ensures Valid() && spans == None
      ensures old(client) != null ==>
                var c := old(client);
                if old(spans).None? then
                  c.sent == old(client.sent) && c.lostTransactions == old(client.lostTransactions)
                  && c.lostSpans == old(client.lostSpans)
                else if sampled then
                  c.sent == old(client.sent) + [old(spans.value)]
                  && c.lostTransactions == old(client.lostTransactions) && c.lostSpans == old(client.lostSpans)
                else
                  c.sent == old(client.sent) && c.lostTransactions == old(client.lostTransactions) + 1
                  && c.lostSpans == old(client.lostSpans) + |old(spans.value)| + 1
      ensures client == if sampled && old(spans).Some? then null else old(client)
    {
      if !sampled {
        var taken := spans;
        spans := None;
        if taken.Some? && client != null {
          client.RecordLostTransaction(taken.value);
        }
        return;
      }
      var taken := spans;
      spans := None;
      if taken.Some? {
        var c := client;
        client := null;
        if c != null {
          c.SendEnvelope(taken.value);
        }
      }
    }

    method StartChild(spanId: Id) returns (span: Span)
      ensures fresh(span) && span.transaction == this && span.sampled == sampled
      ensures span.data == Child(context, spanId)
    {
      span := new Span(this, sampled, SpanData(context.traceId, spanId, Some(context.spanId), false));
    }
  }

  class Span {
    const transaction: TransactionInner
    const sampled: bool
    var data: SpanData

    constructor (transaction: TransactionInner, sampled: bool, data: SpanData)
      ensures this.transaction == transaction && this.sampled == sampled && this.data == data
    {
      this.transaction, this.sampled, this.data := transaction, sampled, data;
    }

    /**
     Marks the span, once, and keeps it with its transaction while that is open; a full transaction
     records the loss instead.
     */
    method Finish()
      requires transaction.Valid()
      modifies this, transaction, transaction.client
      ensures transaction.Valid() && data == old(data).(finished := true)
      ensures transaction.client == old(transaction.client)
      ensures var kept := old(transaction.spans);
              transaction.spans
              == if old(data.finished) || kept.None? then kept else Some(Stored(kept.value, data))
      ensures transaction.client != null ==>
                && transaction.client.sent == old(transaction.client.sent)
                && transaction.client.lostTransactions == old(transaction.client.lostTransactions)
                && transaction.client.lostSpans
                   == old(transaction.client.lostSpans)
                      + if old(data.finished) || old(transaction.spans).None? then 0
                        else Overflow(old(transaction.spans).value)
    {
      if data.finished {
        return;
      }
      data := data.(finished := true);
      if transaction.spans.Some? {
        if |transaction.spans.value| <= MAX_SPANS {
          transaction.spans := Some(transaction.spans.value + [data]);
        } else if transaction.client != null {
          transaction.client.RecordLostSpan();
        }
      }
    }

    method StartChild(spanId: Id) returns (span: Span)
      ensures fresh(span) && span.transaction == transaction && span.sampled == sampled
      ensures span.data == Child(data, spanId)
    {
      span := new Span(transaction, sampled, SpanData(data.traceId, spanId, Some(data.spanId), false));
    }
  }
}
