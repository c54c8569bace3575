/**
 Finishes of one transaction and of its spans, interleaved.

 A span's finish marks the span under the span's mutex and, still holding it, waits for the transaction's
 mutex; in between, other spans and the transaction itself can finish on other threads. A sampled
 transaction is taken under its mutex and sent after the mutex is released.
 */
module TransactionProtocol {
  import opened Wrappers
  import opened Transactions

  datatype Phase = Running | Marked | Delivered

  datatype State = State(
    sampled: bool,
    client: bool,
    open: Option<seq<Id>>,       // the spans kept, while the transaction has not been taken
    spans: map<Id, Phase>,       // every span ever started, by the cell its clones share
    sending: Option<seq<Id>>,    // taken and not yet sent
    sent: seq<seq<Id>>,
    lostTransactions: nat,
    lostSpans: nat,
    finished: seq<Id>)           // the history: spans that reached the open transaction, in order

  /** Every step names the span it is about; any clone of a handle may take it, any number of times. */
  datatype Step =
    | StartChild(span: Id)
    | MarkFinished(span: Id)
    | Deliver(span: Id)
    | FinishTransaction
    | SendEnvelope

  predicate In(phase: Phase, span: Id, s: State) {
    span in s.spans && s.spans[span] == phase
  }

  function Initial(sampled: bool, client: bool): State {
    State(sampled, client, if client then Some([]) else None, map[], None, [], 0, 0, [])
  }

  function Keep(s: State, span: Id): State {
    if s.open.None? then s
    else s.(open := Some(Stored(s.open.value, span)),
            lostSpans := s.lostSpans + if s.client then Overflow(s.open.value) else 0,
            finished := s.finished + [span])
  }

  function Take(s: State): State {
    if s.open.None? then s
    else if s.sampled
    then s.(open := None, client := false, sending := if s.client then s.open else s.sending)
    else if s.client
    then s.(open := None, lostTransactions := s.lostTransactions + 1, lostSpans := s.lostSpans + |s.open.value| + 1)
    else s.(open := None)
  }

  /** A step that is not possible, or a finish of something finished, changes nothing. */
  function After(s: State, step: Step): State {
    match step
    case StartChild(span) => if span in s.spans then s else s.(spans := s.spans[span := Running])
    case MarkFinished(span) => if In(Running, span, s) then s.(spans := s.spans[span := Marked]) else s
    case Deliver(span) => if In(Marked, span, s) then Keep(s, span).(spans := s.spans[span := Delivered]) else s
    case FinishTransaction => Take(s)
    case SendEnvelope =>
      if s.sending.Some? then s.(sending := None, sent := s.sent + [s.sending.value]) else s
  }

  function Run(steps: seq<Step>, sampled: bool, client: bool): State {
    if steps == [] then Initial(sampled, client)
    else After(Run(steps[..|steps| - 1], sampled, client), steps[|steps| - 1])
  }

  /** The spans a transaction can keep of those that finished. */
  function Kept(finished: seq<Id>): seq<Id> {
    if |finished| <= MAX_SPANS + 1 then finished else finished[..MAX_SPANS + 1]
  }

  predicate Distinct(s: seq<Id>) {
    forall i, j :: 0 <= i < j < |s| ==> s[i] != s[j]
  }

  /** Where the transaction is: open, being sent, sent, recorded as lost, or never there. */
  ghost predicate Accounted(s: State, client: bool) {
    var n := |s.finished|;
    if !client then
      s.open == None && s.sending == None && s.sent == [] && s.lostTransactions == s.lostSpans == n == 0
    else if s.open.Some? then
      && s.client && s.open.value == Kept(s.finished)
      && s.sending == None && s.sent == [] && s.lostTransactions == 0
      && s.lostSpans == n - |Kept(s.finished)|
    else if s.sampled then
      && ((s.sending == Some(Kept(s.finished)) && s.sent == [])
          || (s.sending == None && s.sent == [Kept(s.finished)]))
      && s.lostTransactions == 0
      && s.lostSpans == n - |Kept(s.finished)|
    else
      s.sending == None && s.sent == [] && s.lostTransactions == 1 && s.lostSpans == n + 1
  }

  /** No span finishes twice. */
  ghost predicate FinishedOnce(s: State) {
    && Distinct(s.finished)
    && (forall span :: span in s.finished ==> In(Delivered, span, s))
    && (s.open.Some? ==> forall span :: In(Delivered, span, s) ==> span in s.finished)
  }

  lemma StepKeepsAccount(s: State, step: Step, client: bool)
    requires Accounted(s, client)
    ensures Accounted(After(s, step), client)
  {}

  lemma StepKeepsFinishedOnce(s: State, step: Step)
    requires FinishedOnce(s)
    ensures FinishedOnce(After(s, step))
  {
    var s' := After(s, step);
    match step
    case Deliver(span) =>
      if In(Marked, span, s) {
        assert span !in s.finished;
        assert forall x :: In(Delivered, x, s') <==> In(Delivered, x, s) || x == span;
        assert s.open.Some? ==> s'.finished == s.finished + [span];
      }
    case MarkFinished(span) => assert forall x :: In(Delivered, x, s') <==> In(Delivered, x, s);
    case StartChild(span) => assert forall x :: In(Delivered, x, s') <==> In(Delivered, x, s);
    case _ => assert s'.spans == s.spans;
  }

  lemma {:induction false} RunKeepsInv(steps: seq<Step>, sampled: bool, client: bool)
    ensures Accounted(Run(steps, sampled, client), client) && FinishedOnce(Run(steps, sampled, client))
    ensures Run(steps, sampled, client).sampled == sampled
  {
    if steps != [] {
      RunKeepsInv(steps[..|steps| - 1], sampled, client);
      var s := Run(steps[..|steps| - 1], sampled, client);
      StepKeepsAccount(s, steps[|steps| - 1], client);
      StepKeepsFinishedOnce(s, steps[|steps| - 1]);
    }
  }

  /** At most one envelope leaves, and at most one loss is recorded; never both. */
  lemma SentOrLostAtMostOnce(steps: seq<Step>, sampled: bool, client: bool)
    ensures var s := Run(steps, sampled, client);
            |s.sent| + s.lostTransactions + (if s.sending.Some? then 1 else 0) + (if s.open.Some? then 1 else 0)
            == if client then 1 else 0
  {
    RunKeepsInv(steps, sampled, client);
  }

  /**
   While the transaction is open its spans are the first to have finished, each once, one more than
   `MAX_SPANS` at most, and every later one is recorded as lost.
   */
  lemma OpenTransactionAccountsForEverySpan(steps: seq<Step>, sampled: bool, client: bool)
    requires Run(steps, sampled, client).open.Some?
    ensures var s := Run(steps, sampled, client);
            && s.open.value <= s.finished && |s.open.value| <= MAX_SPANS + 1
            && |s.finished| == |s.open.value| + s.lostSpans
            && Distinct(s.finished)
            && forall span :: In(Delivered, span, s) <==> span in s.finished
  {
    RunKeepsInv(steps, sampled, client);
  }

  /** What an envelope carries, and what was recorded as lost besides, are the spans finished before the transaction. */
  lemma SentSpansAreTheFirstFinished(steps: seq<Step>, client: bool)
    requires Run(steps, true, client).sent != []
    ensures var s := Run(steps, true, client);
            && s.sent == [Kept(s.finished)] && Distinct(s.sent[0])
            && |s.sent[0]| + s.lostSpans == |s.finished|
  {
    RunKeepsInv(steps, true, client);
  }

  /** A transaction that is not sampled ends with itself and every span finished before it recorded as lost. */
  lemma UnsampledIsLostWhole(steps: seq<Step>)
    requires Run(steps, false, true).open == None
    ensures var s := Run(steps, false, true);
            s.sent == [] && s.lostTransactions == 1 && s.lostSpans == |s.finished| + 1
  {
    RunKeepsInv(steps, false, true);
  }

  /** A span that reaches a transaction already taken leaves no trace, not even a recorded loss. */
  lemma LateSpanVanishes(steps: seq<Step>, span: Id, sampled: bool)
    requires Run(steps, sampled, true).open == None
    ensures var before, after := Run(steps, sampled, true), Run(steps + [Deliver(span)], sampled, true);
            after == before.(spans := after.spans)
  {
    assert (steps + [Deliver(span)])[..|steps|] == steps;
  }

  lemma RunLonger(steps: seq<Step>, step: Step, sampled: bool, client: bool)
    ensures Run(steps + [step], sampled, client) == After(Run(steps, sampled, client), step)
  {
    assert (steps + [step])[..|steps|] == steps;
  }

  /** A new span that finishes while its transaction is open is kept, or lost because the transaction is full. */
  lemma FinishedSpanIsCounted(steps: seq<Step>, span: Id, sampled: bool, client: bool)
    requires Run(steps, sampled, client).open.Some? && span !in Run(steps, sampled, client).spans
    ensures var s := Run(steps, sampled, client);
            var t := Run(steps + [StartChild(span)] + [MarkFinished(span)] + [Deliver(span)], sampled, client);
            && t.finished == s.finished + [span] && t.open.Some? && In(Delivered, span, t)
            && (|s.finished| <= MAX_SPANS ==> t.open == Some(s.open.value + [span]) && t.lostSpans == s.lostSpans)
            && (|s.finished| > MAX_SPANS ==> t.open == s.open && t.lostSpans == s.lostSpans + 1)
  {
    RunKeepsInv(steps, sampled, client);
    RunLonger(steps, StartChild(span), sampled, client);
    RunLonger(steps + [StartChild(span)], MarkFinished(span), sampled, client);
    RunLonger(steps + [StartChild(span)] + [MarkFinished(span)], Deliver(span), sampled, client);
  }

  /** Finishing an open sampled transaction sends it; finishing an open unsampled one records it as lost at once. */
  lemma FinishedTransactionIsGone(steps: seq<Step>, sampled: bool)
    requires Run(steps, sampled, true).open.Some?
    ensures var s, t := Run(steps, sampled, true), Run(steps + [FinishTransaction] + [SendEnvelope], sampled, true);
            && t.open == None && t.sending == None
            && (sampled ==> t.sent == [s.open.value] && t.lostTransactions == 0 && t.lostSpans == s.lostSpans)
            && (!sampled ==> t.sent == [] && t.lostTransactions == 1 && t.lostSpans == s.lostSpans + |s.open.value| + 1)
  {
    RunKeepsInv(steps, sampled, true);
    RunLonger(steps, FinishTransaction, sampled, true);
    RunLonger(steps + [FinishTransaction], SendEnvelope, sampled, true);
  }
}
