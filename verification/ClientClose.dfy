/**
 Closing a client: the session flusher and the batchers are taken and dropped one after the other, each
 under the write lock of its own cell, and then the transport is shut down.

 Calls on a queue hold the read lock of its cell until they return, so the write lock waits for the
 batches that they have in flight. Any number of threads may close the client at once.
 */
module ClientClose {
  import opened Sequences
  import P = BatcherProtocol

  /** A closing thread: which queue it has come to, and whether it holds that queue's write lock. */
  datatype Closer = Closer(phase: nat, holding: bool)

  datatype State<T> = State(
    queues: seq<P.State<T>>,         // in the order in which they are closed
    closers: map<nat, Closer>,
    open: bool,                      // the transport slot is occupied
    delivered: seq<(nat, nat)>,      // batches that reached the transport: queue and batch number
    direct: seq<T>,                  // envelopes sent past the queues that reached the transport
    directLost: seq<T>)              // and those that found the slot empty

  datatype Step<T> =
    | QueueStep(queue: nat, step: P.Step<T>)
    | SendDirect(envelope: T)
    | Arrive(closer: nat)
    | Acquire(closer: nat)
    | Drop(closer: nat, step: P.Step<T>)
    | Shutdown(closer: nat)

  ghost predicate Initial<T>(s: State<T>) {
    && (forall k :: 0 <= k < |s.queues| ==> s.queues[k] == P.Initial<T>())
    && s.closers == map[] && s.open && s.delivered == [] && s.direct == [] && s.directLost == []
  }

  predicate IsDropStep<T>(step: P.Step<T>) {
    step.DropStart? || step.DropSetFlag? || step.DropNotify? || step.DropJoin? || step.DropTake? || step.DropSend?
  }

  /** Some closer holds the write lock of queue `k`. */
  ghost predicate Locked<T>(s: State<T>, k: nat) {
    exists c :: c in s.closers && s.closers[c] == Closer(k, true)
  }

  ghost predicate Enabled<T>(s: State<T>, step: Step<T>) {
    match step
    case QueueStep(k, inner) => k < |s.queues| && !IsDropStep(inner) && P.Enabled(s.queues[k], inner)
    case SendDirect(_) => true
    case Arrive(c) => c !in s.closers
    case Acquire(c) =>
      && c in s.closers && !s.closers[c].holding
      && var k := s.closers[c].phase;
      && k < |s.queues| && !Locked(s, k) && P.Unborrowed(s.queues[k])
    case Drop(c, inner) =>
      && c in s.closers && s.closers[c].holding && s.closers[c].phase < |s.queues|
      && IsDropStep(inner) && P.Enabled(s.queues[s.closers[c].phase], inner)
    case Shutdown(c) => c in s.closers && s.closers[c] == Closer(|s.queues|, false)
  }

  /** A step of a queue; a batch it hands to the sender reaches the transport if the slot is occupied. */
  function Moved<T>(s: State<T>, k: nat, inner: P.Step<T>): State<T>
    requires k < |s.queues| && P.Enabled(s.queues[k], inner)
  {
    var after := P.After(s.queues[k], inner);
    var sends := |after.sent| > |s.queues[k].sent|;
    s.(queues := s.queues[k := after],
       delivered := if sends && s.open then s.delivered + [(k, after.sent[|after.sent| - 1])] else s.delivered)
  }

  function After<T>(s: State<T>, step: Step<T>): State<T>
    requires Enabled(s, step)
  {
    match step
    case QueueStep(k, inner) => Moved(s, k, inner)
    case SendDirect(envelope) =>
      if s.open then s.(direct := s.direct + [envelope]) else s.(directLost := s.directLost + [envelope])
    case Arrive(c) => s.(closers := s.closers[c := Closer(0, false)])
    case Acquire(c) =>
      var k := s.closers[c].phase;
      if s.queues[k].dropper.NotDropping? then
        // take the queue out of its cell and begin to drop it
        Moved(s, k, P.DropStart).(closers := s.closers[c := Closer(k, true)])
      else
        // the cell is empty already
        s.(closers := s.closers[c := Closer(k + 1, false)])
    case Drop(c, inner) =>
      var k := s.closers[c].phase;
      var moved := Moved(s, k, inner);
      if moved.queues[k].dropper.Dropped? then moved.(closers := s.closers[c := Closer(k + 1, false)]) else moved
    case Shutdown(c) => s.(open := false, closers := s.closers[c := Closer(|s.queues| + 1, false)])
  }

  // ----- the invariant

  /** The batches of queue `k` that reached the transport, in order. */
  function DeliveredOf(delivered: seq<(nat, nat)>, k: nat): seq<nat> {
    if delivered == [] then [] else
    var last := delivered[|delivered| - 1];
    DeliveredOf(delivered[..|delivered| - 1], k) + if last.0 == k then [last.1] else []
  }

  predicate BeingDropped<T>(q: P.State<T>) {
    !q.dropper.NotDropping? && !q.dropper.Dropped?
  }

  ghost predicate CloserFits<T>(s: State<T>, closer: Closer) {
    && (forall k :: 0 <= k < closer.phase && k < |s.queues| ==> s.queues[k].dropper.Dropped?)
    && (closer.holding ==> closer.phase < |s.queues| && BeingDropped(s.queues[closer.phase]))
    && (closer.phase > |s.queues| ==> !s.open)
  }

  ghost predicate Inv<T>(s: State<T>) {
    && (forall k :: 0 <= k < |s.queues| ==> P.Inv(s.queues[k]))
    && (forall k :: 0 <= k < |s.queues| ==> DeliveredOf(s.delivered, k) == s.queues[k].sent)
    && (forall k :: 0 <= k < |s.queues| && BeingDropped(s.queues[k]) ==> Locked(s, k))
    && (forall c, d :: c in s.closers && d in s.closers && c != d && s.closers[c].holding && s.closers[d].holding ==>
          s.closers[c].phase != s.closers[d].phase)
    && (forall c :: c in s.closers ==> CloserFits(s, s.closers[c]))
    && (!s.open ==> forall k :: 0 <= k < |s.queues| ==> s.queues[k].dropper.Dropped?)
  }

  lemma InitialInv<T>(s: State<T>)
    requires Initial(s)
    ensures Inv(s)
  {
    P.InitialInv<T>();
  }

  lemma DeliveredLonger(delivered: seq<(nat, nat)>, k: nat, batch: nat, i: nat)
    ensures DeliveredOf(delivered + [(k, batch)], i) == DeliveredOf(delivered, i) + if i == k then [batch] else []
  {
    assert (delivered + [(k, batch)])[..|delivered|] == delivered;
  }

  /** A step of a queue hands over at most one batch, and none once the queue has been dropped. */
  lemma SendsAtMostOne<T>(q: P.State<T>, step: P.Step<T>)
    requires P.Inv(q) && P.Enabled(q, step)
    ensures var after := P.After(q, step).sent;
            after == q.sent || (|after| == |q.sent| + 1 && after[..|q.sent|] == q.sent && !q.dropper.Dropped?)
    ensures q.dropper.Dropped? ==> P.After(q, step).dropper.Dropped?
    ensures !IsDropStep(step) ==> P.After(q, step).dropper == q.dropper
    ensures IsDropStep(step) ==> !P.After(q, step).dropper.NotDropping?
  {
  }

  lemma MovedKeepsDelivery<T>(s: State<T>, k: nat, inner: P.Step<T>)
    requires Inv(s) && k < |s.queues| && P.Enabled(s.queues[k], inner)
    ensures var t := Moved(s, k, inner);
            && P.Inv(t.queues[k])
            && (forall i :: 0 <= i < |t.queues| ==> DeliveredOf(t.delivered, i) == t.queues[i].sent)
  {
    var q, t := s.queues[k], Moved(s, k, inner);
    P.StepKeepsInv(q, inner);
    SendsAtMostOne(q, inner);
    var sent := t.queues[k].sent;
    forall i | 0 <= i < |t.queues| ensures DeliveredOf(t.delivered, i) == t.queues[i].sent {
      if sent != q.sent {
        DeliveredLonger(s.delivered, k, sent[|sent| - 1], i);
        assert sent == q.sent + [sent[|sent| - 1]];
      }
    }
  }

  lemma QueueStepKeepsInv<T>(s: State<T>, k: nat, inner: P.Step<T>)
    requires Inv(s) && Enabled(s, QueueStep(k, inner))
    ensures Inv(After(s, QueueStep(k, inner)))
  {
    hide P.Inv, P.After, P.Enabled, DeliveredOf;
    MovedKeepsDelivery(s, k, inner);
    SendsAtMostOne(s.queues[k], inner);
    var t := Moved(s, k, inner);
    forall i | 0 <= i < |t.queues| && BeingDropped(t.queues[i]) ensures Locked(t, i) {
      assert Locked(s, i);
    }
  }

  lemma AcquireKeepsInv<T>(s: State<T>, c: nat)
    requires Inv(s) && Enabled(s, Acquire(c))
    ensures Inv(After(s, Acquire(c)))
  {
    hide P.Inv, P.Unborrowed, DeliveredOf;
    var k := s.closers[c].phase;
    var t := After(s, Acquire(c));
    if s.queues[k].dropper.NotDropping? {
      MovedKeepsDelivery(s, k, P.DropStart);
      assert t.closers[c] == Closer(k, true);
    }
    forall i | 0 <= i < |t.queues| && BeingDropped(t.queues[i]) ensures Locked(t, i) {
      if i != k {
        assert Locked(s, i);
        var d :| d in s.closers && s.closers[d] == Closer(i, true);
        assert t.closers[d] == Closer(i, true);
      }
    }
  }

  lemma DropKeepsInv<T>(s: State<T>, c: nat, inner: P.Step<T>)
    requires Inv(s) && Enabled(s, Drop(c, inner))
    ensures Inv(After(s, Drop(c, inner)))
  {
    hide P.Inv, P.After, P.Enabled, DeliveredOf;
    var k := s.closers[c].phase;
    MovedKeepsDelivery(s, k, inner);
    SendsAtMostOne(s.queues[k], inner);
    var t := After(s, Drop(c, inner));
    forall i | 0 <= i < |t.queues| && BeingDropped(t.queues[i]) ensures Locked(t, i) {
      assert Locked(s, i);
      var d :| d in s.closers && s.closers[d] == Closer(i, true);
      assert t.closers[d] == Closer(i, true);
    }
  }

  lemma StepKeepsInv<T>(s: State<T>, step: Step<T>)
    requires Inv(s) && Enabled(s, step)
    ensures Inv(After(s, step))
  {
    hide P.Inv, P.After, DeliveredOf;
    match step
    case QueueStep(k, inner) => QueueStepKeepsInv(s, k, inner);
    case Acquire(c) => AcquireKeepsInv(s, c);
    case Drop(c, inner) => DropKeepsInv(s, c, inner);
    case SendDirect(_) => UnlockedChangeKeepsLocks(s, After(s, step));
    case Arrive(_) => UnlockedChangeKeepsLocks(s, After(s, step));
    case Shutdown(_) => UnlockedChangeKeepsLocks(s, After(s, step));
  }

  lemma UnlockedChangeKeepsLocks<T>(s: State<T>, t: State<T>)
    requires forall c :: c in s.closers && s.closers[c].holding ==> c in t.closers && t.closers[c] == s.closers[c]
    ensures forall k: nat :: Locked(s, k) ==> Locked(t, k)
  {
    forall k: nat | Locked(s, k) ensures Locked(t, k) {
      var c :| c in s.closers && s.closers[c] == Closer(k, true);
      assert t.closers[c] == Closer(k, true);
    }
  }

  // ----- runs

  ghost predicate CanRun<T>(s: State<T>, steps: seq<Step<T>>)
    decreases |steps|
  {
    steps == [] || (Enabled(s, steps[0]) && CanRun(After(s, steps[0]), steps[1..]))
  }

  ghost function Run<T>(s: State<T>, steps: seq<Step<T>>): State<T>
    requires CanRun(s, steps)
    decreases |steps|
  {
    if steps == [] then s else Run(After(s, steps[0]), steps[1..])
  }

  lemma {:induction false} RunKeepsInv<T>(s: State<T>, steps: seq<Step<T>>)
    requires Inv(s) && CanRun(s, steps)
    ensures Inv(Run(s, steps))
    decreases |steps|
  {
    hide Inv;
    if steps != [] {
      StepKeepsInv(s, steps[0]);
      RunKeepsInv(After(s, steps[0]), steps[1..]);
    }
  }

  /**
   Closing loses nothing: in every run, when the transport is gone, every entry that was ever accepted by
   a queue was taken in order into batches, and every batch reached the transport, exactly once.
   */
  lemma CloseLosesNothing<T>(s: State<T>, steps: seq<Step<T>>)
    requires Initial(s) && CanRun(s, steps) && !Run(s, steps).open
    ensures var t := Run(s, steps);
            forall k :: 0 <= k < |t.queues| ==>
              P.AllSentOnce(t.queues[k]) && DeliveredOf(t.delivered, k) == t.queues[k].sent
  {
    InitialInv(s);
    RunKeepsInv(s, steps);
    var t := Run(s, steps);
    forall k | 0 <= k < |t.queues| ensures P.AllSentOnce(t.queues[k]) {
      P.DroppedHasSentAll(t.queues[k]);
    }
  }

  /** Once the slot is empty it stays empty, and nothing reaches the transport any more. */
  lemma {:induction false} ClosedForGood<T>(s: State<T>, steps: seq<Step<T>>)
    requires Inv(s) && !s.open && CanRun(s, steps)
    ensures var t := Run(s, steps); !t.open && t.delivered == s.delivered && t.direct == s.direct
    decreases |steps|
  {
    hide P.Inv, P.After, DeliveredOf, P.Enabled;
    if steps != [] {
      StepKeepsInv(s, steps[0]);
      ClosedForGood(After(s, steps[0]), steps[1..]);
    }
  }

  /** While the slot is occupied, every envelope sent past the queues reaches the transport. */
  lemma {:induction false} OpenUntilShutdown<T>(s: State<T>, steps: seq<Step<T>>)
    requires Inv(s) && s.open && CanRun(s, steps)
    requires forall i :: 0 <= i < |steps| ==> !steps[i].Shutdown?
    ensures var t := Run(s, steps); t.open && t.directLost == s.directLost
    decreases |steps|
  {
    hide Inv, P.After, P.Enabled;
    if steps != [] {
      StepKeepsInv(s, steps[0]);
      OpenUntilShutdown(After(s, steps[0]), steps[1..]);
    }
  }

  /** When a call that closes the client returns, the transport is gone. */
  lemma ReturnedMeansClosed<T>(s: State<T>, steps: seq<Step<T>>, c: nat)
    requires Initial(s) && CanRun(s, steps) && c in Run(s, steps).closers
    ensures Run(s, steps).closers[c].phase > |Run(s, steps).queues| ==> !Run(s, steps).open
  {
    InitialInv(s);
    RunKeepsInv(s, steps);
  }

  /** The envelopes sent past the queues. */
  function Direct<T>(steps: seq<Step<T>>): seq<T> {
    if steps == [] then [] else DirectOf(steps[0]) + Direct(steps[1..])
  }

  function DirectOf<T>(step: Step<T>): seq<T> {
    if step.SendDirect? then [step.envelope] else []
  }

  lemma DirectStep<T>(s: State<T>, step: Step<T>)
    requires Inv(s) && Enabled(s, step) && (s.open ==> s.directLost == [])
    ensures var t := After(s, step);
            && (t.open ==> t.directLost == [])
            && t.direct + t.directLost == s.direct + s.directLost + DirectOf(step)
  {
    hide Inv, P.After, P.Enabled;
    if step.SendDirect? && !s.open {
      assert s.direct + (s.directLost + [step.envelope]) == s.direct + s.directLost + [step.envelope];
    }
  }

  lemma {:induction false} DirectRun<T>(s: State<T>, steps: seq<Step<T>>)
    requires Inv(s) && CanRun(s, steps) && (s.open ==> s.directLost == [])
    ensures var t := Run(s, steps);
            && (t.open ==> t.directLost == [])
            && t.direct + t.directLost == s.direct + s.directLost + Direct(steps)
    decreases |steps|
  {
    if steps == [] {
      assert s.direct + s.directLost + [] == s.direct + s.directLost;
    } else {
      var t, rest := After(s, steps[0]), steps[1..];
      assert CanRun(t, rest) && Run(s, steps) == Run(t, rest) && Direct(steps) == DirectOf(steps[0]) + Direct(rest);
      hide *;
      StepKeepsInv(s, steps[0]);
      DirectStep(s, steps[0]);
      DirectRun(t, rest);
      Associate(s.direct + s.directLost, DirectOf(steps[0]), Direct(rest));
    }
  }

  /** Each envelope sent past the queues reached the transport or found it gone; the ones that got there came first. */
  lemma DirectAccounted<T>(s: State<T>, steps: seq<Step<T>>)
    requires Initial(s) && CanRun(s, steps)
    ensures var t := Run(s, steps);
            t.direct + t.directLost == Direct(steps) && (t.open ==> t.directLost == [])
  {
    InitialInv(s);
    DirectRun(s, steps);
    assert s.direct + s.directLost == [];
  }

  /** Steps that bring the calls under way further: no new calls, and no waking up for nothing. */
  ghost predicate CanAdvance<T>(s: State<T>, step: Step<T>) {
    Enabled(s, step) &&
    match step
    case QueueStep(_, inner) => !inner.Enqueue? && !inner.Flush? && !inner.WorkerWake?
    case SendDirect(_) => false
    case Arrive(_) => false
    case _ => true
  }

  lemma HolderAdvances<T>(s: State<T>, c: nat)
    requires Inv(s) && c in s.closers && s.closers[c].holding
    ensures exists step :: CanAdvance(s, step)
  {
    var k := s.closers[c].phase;
    assert CloserFits(s, s.closers[c]);
    P.DropNeverStuck(s.queues[k]);
    var inner :| P.Enabled(s.queues[k], inner) && !inner.WorkerWake?;
    if IsDropStep(inner) {
      assert CanAdvance(s, Drop(c, inner));
    } else {
      assert CanAdvance(s, QueueStep(k, inner));
    }
  }

  /** A call that closes the client never gets stuck: until it returns, it or a call it waits for can take a step. */
  lemma CloseNeverStuck<T>(s: State<T>, c: nat)
    requires Inv(s) && c in s.closers && s.closers[c].phase <= |s.queues|
    ensures exists step :: CanAdvance(s, step)
  {
    hide P.Inv, P.Enabled, DeliveredOf;
    var k := s.closers[c].phase;
    if s.closers[c].holding {
      HolderAdvances(s, c);
    } else if k == |s.queues| {
      assert CanAdvance(s, Shutdown(c));
    } else if Locked(s, k) {
      var d :| d in s.closers && s.closers[d] == Closer(k, true);
      HolderAdvances(s, d);
    } else if P.Unborrowed(s.queues[k]) {
      assert CanAdvance(s, Acquire(c));
    } else {
      BorrowerAdvances(s, k);
    }
  }

  lemma BorrowerAdvances<T>(s: State<T>, k: nat)
    requires k < |s.queues| && !P.Unborrowed(s.queues[k])
    ensures exists step :: CanAdvance(s, step)
  {
    var holder: P.Holder :| holder in s.queues[k].inFlight && holder.Thread?;
    assert P.Enabled(s.queues[k], P.Send(holder.id));
    assert CanAdvance(s, QueueStep(k, P.Send(holder.id)));
  }
}
