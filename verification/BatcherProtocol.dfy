/**
 The batching worker as a system of interleaved steps.

 The log and metric batchers and the session flusher run the same protocol: threads push entries under
 the queue's mutex and take the whole queue when it is full; a worker thread takes it after a timeout,
 holding the mutex of the shutdown flag while it is awake; dropping the batcher sets the flag, notifies
 and joins the worker, and sends what is left. A batch is taken under the queue's mutex but sent after
 the mutex is released, so batches are in flight between steps.

 Each step is one stretch of code that no other thread can interrupt: a critical section of the queue's
 mutex, taking or releasing the flag's mutex, or handing one envelope to the sender.
 */
module BatcherProtocol {
  import opened Sequences

  const MAX_ITEMS: nat := 100

  /** An entry of a queue; only entries that count can fill it. */
  datatype Entry<T> = Entry(item: T, counts: bool)

  /** Where the worker thread is. */
  datatype Worker =
    | Spawned        // wants the flag's mutex for the first time
    | Checking       // holds the mutex, before the first look at the flag
    | AboutToWait    // holds the mutex, saw the flag unset
    | Waiting        // released the mutex, waits to be notified or to time out
    | Woken          // wants the mutex again
    | Awake          // holds the mutex, before the next look at the flag
    | Flushing       // holds the mutex, wants to take the queue
    | WorkerSending  // holds the mutex, a batch is in flight
    | Exited

  /** Where the thread that drops the batcher is. */
  datatype Dropper =
    | NotDropping
    | WantsLock      // wants the flag's mutex
    | FlagSet        // set the flag and released the mutex
    | Notified       // notified the worker, joins it
    | Joined         // the worker has exited
    | DropSending    // the last batch is in flight
    | Dropped

  /** Who can have a batch in flight. */
  datatype Holder = Thread(id: nat) | TheWorker | TheDropper

  datatype State<T> = State(
    queue: seq<Entry<T>>,
    flag: bool,
    worker: Worker,
    dropper: Dropper,
    inFlight: map<Holder, nat>,  // batches taken and not sent yet, by their place in the order of taking
    // the history: everything pushed, everything taken, and the batches handed to the sender
    enqueued: seq<Entry<T>>,
    batches: seq<seq<Entry<T>>>,
    sent: seq<nat>)

  datatype Step<T> =
    | Enqueue(thread: nat, entry: Entry<T>)
    | Flush(thread: nat)
    | Send(thread: nat)
    | WorkerLock
    | WorkerCheck
    | WorkerWait
    | WorkerWake
    | WorkerLook(elapsed: bool)
    | WorkerTake
    | WorkerSend
    | DropStart
    | DropSetFlag
    | DropNotify
    | DropJoin
    | DropTake
    | DropSend

  function Counting<T>(entries: seq<Entry<T>>): nat {
    if entries == [] then 0
    else Counting(entries[..|entries| - 1]) + if entries[|entries| - 1].counts then 1 else 0
  }

  function Initial<T>(): State<T> {
    State([], false, Spawned, NotDropping, map[], [], [], [])
  }

  predicate LockFree<T>(s: State<T>) {
    !(s.worker.Checking? || s.worker.AboutToWait? || s.worker.Awake? || s.worker.Flushing? || s.worker.WorkerSending?)
  }

  /** Pushing this entry fills the queue. */
  predicate Fills<T>(queue: seq<Entry<T>>, entry: Entry<T>) {
    entry.counts && Counting(queue + [entry]) >= MAX_ITEMS
  }

  /** No call that borrows the batcher is under way. */
  predicate Unborrowed<T>(s: State<T>) {
    forall holder :: holder in s.inFlight ==> !holder.Thread?
  }

  predicate Enabled<T>(s: State<T>, step: Step<T>) {
    match step
    // calls borrow the batcher, so there are none once it is being dropped
    case Enqueue(thread, _) => s.dropper.NotDropping? && Thread(thread) !in s.inFlight
    case Flush(thread) => s.dropper.NotDropping? && Thread(thread) !in s.inFlight
    case Send(thread) => Thread(thread) in s.inFlight
    case WorkerLock => (s.worker.Spawned? || s.worker.Woken?) && LockFree(s)
    case WorkerCheck => s.worker.Checking?
    case WorkerWait => s.worker.AboutToWait?
    case WorkerWake => s.worker.Waiting?  // the timeout ran out, or for no reason at all
    case WorkerLook(_) => s.worker.Awake?
    case WorkerTake => s.worker.Flushing?
    case WorkerSend => s.worker.WorkerSending? && TheWorker in s.inFlight
    case DropStart => s.dropper.NotDropping? && Unborrowed(s)
    case DropSetFlag => s.dropper.WantsLock? && LockFree(s)
    case DropNotify => s.dropper.FlagSet?
    case DropJoin => s.dropper.Notified? && s.worker.Exited?
    case DropTake => s.dropper.Joined?
    case DropSend => s.dropper.DropSending? && TheDropper in s.inFlight
  }

  function Pushed<T>(s: State<T>, entry: Entry<T>): State<T> {
    s.(queue := s.queue + [entry], enqueued := s.enqueued + [entry])
  }

  /** Takes the whole queue as the next batch, which is then in flight. */
  function Taken<T>(s: State<T>, holder: Holder): State<T> {
    s.(queue := [], batches := s.batches + [s.queue], inFlight := s.inFlight[holder := |s.batches|])
  }

  /** Hands the batch in flight to the sender. */
  function Sent<T>(s: State<T>, holder: Holder): State<T>
    requires holder in s.inFlight
  {
    s.(sent := s.sent + [s.inFlight[holder]], inFlight := s.inFlight - {holder})
  }

  function After<T>(s: State<T>, step: Step<T>): State<T>
    requires Enabled(s, step)
  {
    match step
    case Enqueue(thread, entry) =>
      if Fills(s.queue, entry) then Taken(Pushed(s, entry), Thread(thread)) else Pushed(s, entry)
    case Flush(thread) => if s.queue == [] then s else Taken(s, Thread(thread))
    case Send(thread) => Sent(s, Thread(thread))
    case WorkerLock => s.(worker := if s.worker.Spawned? then Checking else Awake)
    case WorkerCheck => s.(worker := if s.flag then Exited else AboutToWait)
    case WorkerWait => s.(worker := Waiting)
    case WorkerWake => s.(worker := Woken)
    case WorkerLook(elapsed) => s.(worker := if s.flag then Exited else if elapsed then Flushing else AboutToWait)
    case WorkerTake =>
      if s.queue == [] then s.(worker := AboutToWait) else Taken(s, TheWorker).(worker := WorkerSending)
    case WorkerSend => Sent(s, TheWorker).(worker := AboutToWait)
    case DropStart => s.(dropper := WantsLock)
    case DropSetFlag => s.(flag := true, dropper := FlagSet)
    case DropNotify => s.(dropper := Notified, worker := if s.worker.Waiting? then Woken else s.worker)
    case DropJoin => s.(dropper := Joined)
    case DropTake =>
      if s.queue == [] then s.(dropper := Dropped) else Taken(s, TheDropper).(dropper := DropSending)
    case DropSend => Sent(s, TheDropper).(dropper := Dropped)
  }

  // ----- the invariant

  /** Taken batches, one after the other, and then the queue: that is what was pushed, in order. */
  ghost predicate KeepsOrder<T>(s: State<T>) {
    Flatten(s.batches) + s.queue == s.enqueued
  }

  ghost predicate Bounded<T>(s: State<T>) {
    && Counting(s.queue) < MAX_ITEMS
    && forall b :: 0 <= b < |s.batches| ==> s.batches[b] != [] && Counting(s.batches[b]) <= MAX_ITEMS
  }

  /** Every batch was sent once or is in flight in one place. */
  ghost predicate SentOrHeldOnce<T>(s: State<T>) {
    && (forall i, k :: 0 <= i < k < |s.sent| ==> s.sent[i] != s.sent[k])
    && (forall b :: b in s.sent ==> b < |s.batches|)
    && (forall h :: h in s.inFlight ==> s.inFlight[h] < |s.batches| && s.inFlight[h] !in s.sent)
    && (forall h, k :: h in s.inFlight && k in s.inFlight && h != k ==> s.inFlight[h] != s.inFlight[k])
    && (forall b: nat :: b < |s.batches| ==> b in s.sent || b in s.inFlight.Values)
  }

  /** How the flag, the worker and the dropper fit together. */
  ghost predicate Synchronized<T>(s: State<T>) {
    && (s.flag <==> !s.dropper.NotDropping? && !s.dropper.WantsLock?)
    && (s.flag ==> !s.worker.AboutToWait? && !s.worker.Flushing? && !s.worker.WorkerSending?)
    && (s.flag && s.worker.Waiting? ==> s.dropper.FlagSet?)
    && (s.worker.Exited? ==> s.flag)
    && (s.worker.WorkerSending? <==> TheWorker in s.inFlight)
    && (s.dropper.DropSending? <==> TheDropper in s.inFlight)
    && (!s.dropper.NotDropping? ==> Unborrowed(s))
    && (s.dropper.Joined? || s.dropper.DropSending? || s.dropper.Dropped? ==> s.worker.Exited?)
    && (s.dropper.DropSending? || s.dropper.Dropped? ==> s.queue == [])
  }

  ghost predicate Inv<T>(s: State<T>) {
    KeepsOrder(s) && Bounded(s) && SentOrHeldOnce(s) && Synchronized(s)
  }

  lemma InitialInv<T>()
    ensures Inv(Initial<T>())
  {
  }

  // ----- every step keeps the invariant

  lemma CountingLonger<T>(entries: seq<Entry<T>>, entry: Entry<T>)
    ensures Counting(entries + [entry]) == Counting(entries) + if entry.counts then 1 else 0
  {
    assert (entries + [entry])[..|entries|] == entries;
  }

  lemma PushedKeeps<T>(s: State<T>, entry: Entry<T>)
    requires SentOrHeldOnce(s)
    ensures SentOrHeldOnce(Pushed(s, entry))
  {
  }

  /** A batch is in flight as soon as it is taken, and the others stay where they are. */
  lemma TakenIsHeld<T>(s: State<T>, holder: Holder, b: nat)
    requires SentOrHeldOnce(s) && holder !in s.inFlight && b <= |s.batches|
    ensures b in s.sent || b in Taken(s, holder).inFlight.Values
  {
    var t := Taken(s, holder);
    if b < |s.batches| && b !in s.sent {
      var h :| h in s.inFlight && s.inFlight[h] == b;
      assert t.inFlight[h] == b;
    } else {
      assert t.inFlight[holder] == |s.batches|;
    }
  }

  lemma TakenKeeps<T>(s: State<T>, holder: Holder)
    requires SentOrHeldOnce(s) && holder !in s.inFlight
    ensures SentOrHeldOnce(Taken(s, holder))
  {
    var t := Taken(s, holder);
    assert t.sent == s.sent && |t.batches| == |s.batches| + 1;
    assert forall h :: h in t.inFlight ==> t.inFlight[h] == if h == holder then |s.batches| else s.inFlight[h];
    forall b: nat | b < |t.batches|
      ensures b in t.sent || b in t.inFlight.Values
    {
      TakenIsHeld(s, holder, b);
    }
    hide Taken;
    assert forall h :: h in t.inFlight ==> t.inFlight[h] !in t.sent;
  }

  lemma TakenKeepsOrder<T>(s: State<T>, holder: Holder)
    requires KeepsOrder(s)
    ensures KeepsOrder(Taken(s, holder))
  {
    FlattenLonger(s.batches, s.queue);
  }

  lemma SentKeeps<T>(s: State<T>, holder: Holder)
    requires SentOrHeldOnce(s) && holder in s.inFlight
    ensures SentOrHeldOnce(Sent(s, holder))
  {
    var t := Sent(s, holder);
    forall b: nat | b < |t.batches| ensures b in t.sent || b in t.inFlight.Values {
      if b in s.inFlight.Values && b != s.inFlight[holder] {
        var h :| h in s.inFlight && s.inFlight[h] == b;
        assert h in t.inFlight && t.inFlight[h] == b;
      } else if b in s.sent {
        assert b in t.sent;
      } else {
        assert t.sent[|s.sent|] == b;
      }
    }
  }

  lemma EnqueueKeepsHistory<T>(s: State<T>, thread: nat, entry: Entry<T>)
    requires Inv(s) && Enabled(s, Enqueue(thread, entry))
    ensures KeepsOrder(After(s, Enqueue(thread, entry))) && SentOrHeldOnce(After(s, Enqueue(thread, entry)))
  {
    hide Flatten, Counting, Fills, Bounded, Synchronized, SentOrHeldOnce;
    var pushed := Pushed(s, entry);
    assert Flatten(s.batches) + (s.queue + [entry]) == s.enqueued + [entry];
    PushedKeeps(s, entry);
    TakenKeeps(pushed, Thread(thread));
    TakenKeepsOrder(pushed, Thread(thread));
  }

  lemma TakingKeepsOrder<T>(s: State<T>, step: Step<T>)
    requires KeepsOrder(s) && Enabled(s, step)
    requires step.Flush? || step.WorkerTake? || step.DropTake?
    ensures KeepsOrder(After(s, step))
  {
    hide Flatten;
    match step
    case Flush(thread) => TakenKeepsOrder(s, Thread(thread));
    case WorkerTake => TakenKeepsOrder(s, TheWorker);
    case DropTake => TakenKeepsOrder(s, TheDropper);
  }

  lemma TakingKeepsBatches<T>(s: State<T>, step: Step<T>)
    requires SentOrHeldOnce(s) && Synchronized(s) && Enabled(s, step)
    requires step.Flush? || step.WorkerTake? || step.DropTake?
    ensures SentOrHeldOnce(After(s, step))
  {
    match step
    case Flush(thread) => TakenKeeps(s, Thread(thread));
    case WorkerTake => TakenKeeps(s, TheWorker);
    case DropTake => TakenKeeps(s, TheDropper);
  }

  lemma OtherStepsKeepHistory<T>(s: State<T>, step: Step<T>)
    requires Inv(s) && Enabled(s, step)
    requires !(step.Enqueue? || step.Flush? || step.WorkerTake? || step.DropTake?)
    ensures KeepsOrder(After(s, step)) && SentOrHeldOnce(After(s, step))
  {
    hide Flatten, Counting, Fills, Bounded;
    match step
    case Send(thread) => SentKeeps(s, Thread(thread));
    case WorkerSend => SentKeeps(s, TheWorker);
    case DropSend => SentKeeps(s, TheDropper);
    case _ =>
  }

  lemma StepKeepsBounds<T>(s: State<T>, step: Step<T>)
    requires Inv(s) && Enabled(s, step)
    ensures Bounded(After(s, step))
  {
    hide Flatten, SentOrHeldOnce, Synchronized;
    if step.Enqueue? {
      CountingLonger(s.queue, step.entry);
    }
  }

  lemma StepKeepsSync<T>(s: State<T>, step: Step<T>)
    requires Inv(s) && Enabled(s, step)
    ensures Synchronized(After(s, step))
  {
  }

  /** What every step of every thread keeps. */
  lemma StepKeepsInv<T>(s: State<T>, step: Step<T>)
    requires Inv(s) && Enabled(s, step)
    ensures Inv(After(s, step))
  {
    if step.Enqueue? {
      EnqueueKeepsHistory(s, step.thread, step.entry);
    } else if step.Flush? || step.WorkerTake? || step.DropTake? {
      TakingKeepsOrder(s, step);
      TakingKeepsBatches(s, step);
    } else {
      OtherStepsKeepHistory(s, step);
    }
    StepKeepsBounds(s, step);
    StepKeepsSync(s, step);
  }

  // ----- runs

  /** The steps can be taken one after the other. */
  ghost predicate CanRun<T>(s: State<T>, steps: seq<Step<T>>)
    decreases |steps|
  {
    steps == [] || (Enabled(s, steps[0]) && CanRun(After(s, steps[0]), steps[1..]))
  }

  ghost function Run<T>(s: State<T>, steps: seq<Step<T>>): State<T>
    requires CanRun(s, steps)
    decreases |steps|
  {
    if steps == [] then s else Run(After(s, steps[0]), steps[1..])
  }

  lemma {:induction false} RunKeepsInv<T>(s: State<T>, steps: seq<Step<T>>)
    requires Inv(s) && CanRun(s, steps)
    ensures Inv(Run(s, steps))
    decreases |steps|
  {
    if steps != [] {
      StepKeepsInv(s, steps[0]);
      RunKeepsInv(After(s, steps[0]), steps[1..]);
    }
  }

  // ----- what holds of every interleaving

  /**
   No lost wake-up: once the flag is set, a sleeping worker has a notification coming. At rest the queue
   is not full, and every batch taken is a non-empty, bounded, contiguous block of what was pushed.
   */
  lemma NoLostWakeup<T>(steps: seq<Step<T>>)
    requires CanRun(Initial<T>(), steps)
    ensures var s := Run(Initial<T>(), steps);
            && (s.flag && s.worker.Waiting? ==> s.dropper.FlagSet?)
            && Counting(s.queue) < MAX_ITEMS
            && (forall b :: 0 <= b < |s.batches| ==> 0 < |s.batches[b]| && Counting(s.batches[b]) <= MAX_ITEMS)
            && Flatten(s.batches) + s.queue == s.enqueued
  {
    InitialInv<T>();
    RunKeepsInv(Initial<T>(), steps);
  }

  /** The entries of the batches whose numbers are in the set. */
  ghost function EntriesOf<T>(batches: seq<seq<T>>, chosen: set<nat>): multiset<T> {
    if batches == [] then multiset{} else
    var n := |batches| - 1;
    EntriesOf(batches[..n], chosen) + if n in chosen then multiset(batches[n]) else multiset{}
  }

  ghost function SentEntries<T>(s: State<T>): multiset<Entry<T>> {
    EntriesOf(s.batches, set b | b in s.sent)
  }

  ghost function InFlightEntries<T>(s: State<T>): multiset<Entry<T>> {
    EntriesOf(s.batches, s.inFlight.Values)
  }

  lemma {:induction false} EntriesOfPartition<T>(batches: seq<seq<T>>, a: set<nat>, b: set<nat>)
    requires forall i: nat :: i < |batches| ==> (i in a <==> i !in b)
    ensures EntriesOf(batches, a) + EntriesOf(batches, b) == multiset(Flatten(batches))
  {
    if batches != [] {
      EntriesOfPartition(batches[..|batches| - 1], a, b);
    }
  }

  /** Nothing is lost and nothing is doubled: pending, in flight and sent make up what was pushed. */
  lemma Conservation<T>(steps: seq<Step<T>>)
    requires CanRun(Initial<T>(), steps)
    ensures var s := Run(Initial<T>(), steps);
            multiset(s.queue) + InFlightEntries(s) + SentEntries(s) == multiset(s.enqueued)
  {
    InitialInv<T>();
    RunKeepsInv(Initial<T>(), steps);
    var s := Run(Initial<T>(), steps);
    EntriesOfPartition(s.batches, s.inFlight.Values, set b | b in s.sent);
  }

  /** The queue is empty, nothing is in flight, and each batch was sent exactly once. */
  ghost predicate AllSentOnce<T>(s: State<T>) {
    && s.queue == [] && s.inFlight == map[] && s.worker.Exited?
    && Flatten(s.batches) == s.enqueued
    && (forall b: nat :: b < |s.batches| ==> multiset(s.sent)[b] == 1)
    && (forall b :: b in s.sent ==> b < |s.batches|)
  }

  lemma DroppedHasSentAll<T>(s: State<T>)
    requires Inv(s) && s.dropper.Dropped?
    ensures AllSentOnce(s)
  {
    assert forall h :: h in s.inFlight ==> h.Thread? || h == TheWorker || h == TheDropper;
    assert s.inFlight == map[];
    forall b: nat | b < |s.batches| ensures multiset(s.sent)[b] == 1 {
      OccursOnce(s.sent, b);
    }
    assert s.queue == [];
  }

  /** When the drop returns, everything that was ever enqueued has been sent, once. */
  lemma DropSendsEverythingOnce<T>(steps: seq<Step<T>>)
    requires CanRun(Initial<T>(), steps)
    requires Run(Initial<T>(), steps).dropper.Dropped?
    ensures AllSentOnce(Run(Initial<T>(), steps))
  {
    InitialInv<T>();
    RunKeepsInv(Initial<T>(), steps);
    DroppedHasSentAll(Run(Initial<T>(), steps));
  }

  lemma {:induction false} OccursOnce(s: seq<nat>, x: nat)
    requires forall i, k :: 0 <= i < k < |s| ==> s[i] != s[k]
    ensures multiset(s)[x] == if x in s then 1 else 0
  {
    if s != [] {
      OccursOnce(s[1..], x);
      assert s == [s[0]] + s[1..];
    }
  }

  // ----- what a flush brings about

  /** The history only grows. */
  lemma StepGrows<T>(s: State<T>, step: Step<T>)
    requires Enabled(s, step)
    ensures var t := After(s, step); s.enqueued <= t.enqueued && s.batches <= t.batches && s.sent <= t.sent
  {
  }

  lemma FlattenGrows<T>(a: seq<seq<T>>, b: seq<seq<T>>)
    requires a <= b
    ensures Flatten(a) <= Flatten(b)
  {
    assert b == a + b[|a|..];
    FlattenJoined(a, b[|a|..]);
  }

  /** Everything in the list was taken, or the worker is about to take what is left of it. */
  ghost predicate TakenSoon<T>(s: State<T>, entries: seq<Entry<T>>) {
    entries <= s.enqueued && (s.worker.Flushing? || entries <= Flatten(s.batches))
  }

  lemma StepKeepsTakenSoon<T>(s: State<T>, step: Step<T>, entries: seq<Entry<T>>)
    requires Inv(s) && Enabled(s, step) && TakenSoon(s, entries)
    ensures TakenSoon(After(s, step), entries)
  {
    var t := After(s, step);
    StepKeepsInv(s, step);
    StepGrows(s, step);
    FlattenGrows(s.batches, t.batches);
    hide Inv, Flatten, Counting, Fills;
    if step.WorkerTake? {
      TakeLeavesNothing(s);
    }
  }

  lemma TakeLeavesNothing<T>(s: State<T>)
    requires Inv(s) && Enabled(s, WorkerTake)
    ensures Flatten(After(s, WorkerTake).batches) == s.enqueued == After(s, WorkerTake).enqueued
  {
    StepKeepsInv(s, WorkerTake);
    var t := After(s, WorkerTake);
    assert t.queue == [] && Flatten(t.batches) + t.queue == t.enqueued;
  }

  lemma {:induction false} RunTakesSoon<T>(s: State<T>, steps: seq<Step<T>>, entries: seq<Entry<T>>)
    requires Inv(s) && CanRun(s, steps) && TakenSoon(s, entries)
    ensures Inv(Run(s, steps)) && TakenSoon(Run(s, steps), entries)
    decreases |steps|
  {
    hide Inv, TakenSoon, After;
    if steps != [] {
      StepKeepsInv(s, steps[0]);
      StepKeepsTakenSoon(s, steps[0], entries);
      RunTakesSoon(After(s, steps[0]), steps[1..], entries);
    }
  }

  /** A batch is sent, or in the hands of a thread that called `enqueue` or `flush`. */
  ghost predicate SentOrWithACaller<T>(s: State<T>, b: nat) {
    b in s.sent || exists thread: nat :: Thread(thread) in s.inFlight && s.inFlight[Thread(thread)] == b
  }

  lemma RestingWorkerHasSent<T>(s: State<T>, b: nat)
    requires Inv(s) && s.worker.Waiting? && b < |s.batches|
    ensures SentOrWithACaller(s, b)
  {
    if b !in s.sent {
      var h :| h in s.inFlight && s.inFlight[h] == b;
      assert h.Thread?;
      assert Thread(h.id) in s.inFlight;
    }
  }

  /**
   The periodic flush: when the worker wakes with its interval over and no shutdown, then by the time it
   waits again all that was enqueued before has been taken, and sent unless a calling thread took it.
   */
  lemma PeriodicFlush<T>(before: seq<Step<T>>, steps: seq<Step<T>>)
    requires CanRun(Initial<T>(), before)
    requires Run(Initial<T>(), before).worker.Awake? && !Run(Initial<T>(), before).flag
    requires CanRun(Run(Initial<T>(), before), [WorkerLook(true)] + steps)
    requires Run(Run(Initial<T>(), before), [WorkerLook(true)] + steps).worker.Waiting?
    ensures var s := Run(Initial<T>(), before);
            var t := Run(s, [WorkerLook(true)] + steps);
            && s.enqueued <= Flatten(t.batches)
            && forall b: nat :: b < |t.batches| ==> SentOrWithACaller(t, b)
  {
    InitialInv<T>();
    RunKeepsInv(Initial<T>(), before);
    var s := Run(Initial<T>(), before);
    var all := [WorkerLook(true)] + steps;
    assert all[1..] == steps;
    var awake := After(s, WorkerLook(true));
    StepKeepsInv(s, WorkerLook(true));
    assert TakenSoon(awake, s.enqueued);
    RunTakesSoon(awake, steps, s.enqueued);
    var t := Run(awake, steps);
    forall b: nat | b < |t.batches| ensures SentOrWithACaller(t, b) {
      RestingWorkerHasSent(t, b);
    }
  }

  /** The worker looked after its interval was over, and has not taken the queue since then. */
  ghost predicate ElapsedSince<T>(steps: seq<Step<T>>, look: nat, i: nat) {
    look < i <= |steps| && steps[look] == WorkerLook(true) && forall j :: look < j < i ==> !steps[j].WorkerTake?
  }

  lemma {:induction false} TakesWhenElapsed<T>(s: State<T>, steps: seq<Step<T>>, i: nat)
    requires CanRun(s, steps) && i < |steps| && steps[i].WorkerTake?
    ensures || (s.worker.Flushing? && forall j :: 0 <= j < i ==> !steps[j].WorkerTake?)
            || exists look: nat :: ElapsedSince(steps, look, i)
    decreases i
  {
    if i > 0 {
      var t, rest, h := After(s, steps[0]), steps[1..], i - 1;
      TakesWhenElapsed(t, rest, h);
      if look: nat :| ElapsedSince(rest, look, h) {
        assert forall j :: look + 1 < j < i ==> steps[j] == rest[j - 1];
        assert ElapsedSince(steps, look + 1, i);
      } else {
        assert forall j :: 0 < j < i ==> steps[j] == rest[j - 1];
        assert steps[0] == WorkerLook(true) ==> ElapsedSince(steps, 0, i);
      }
    }
  }

  /** Waking early takes nothing: for each take there was a look of its own that found the interval over. */
  lemma WorkerTakesOnlyWhenElapsed<T>(steps: seq<Step<T>>, i: nat)
    requires CanRun(Initial<T>(), steps) && i < |steps| && steps[i].WorkerTake?
    ensures exists look: nat :: ElapsedSince(steps, look, i)
  {
    TakesWhenElapsed(Initial<T>(), steps, i);
  }

  /** Enqueuing takes the queue exactly when this entry makes it full, and then it is full to the last entry. */
  lemma EnqueueTakesFullQueue<T>(s: State<T>, thread: nat, entry: Entry<T>)
    requires Inv(s) && Enabled(s, Enqueue(thread, entry))
    ensures var t := After(s, Enqueue(thread, entry));
            if entry.counts && Counting(s.queue) == MAX_ITEMS - 1
            then t.queue == [] && t.batches == s.batches + [s.queue + [entry]]
                 && Counting(s.queue + [entry]) == MAX_ITEMS
                 && t.inFlight == s.inFlight[Thread(thread) := |s.batches|]
            else t.queue == s.queue + [entry] && t.batches == s.batches && t.inFlight == s.inFlight
  {
    CountingLonger(s.queue, entry);
    hide Flatten, SentOrHeldOnce, Synchronized;
  }

  /** A caller's flush takes all that was enqueued. */
  lemma FlushTakesAll<T>(s: State<T>, thread: nat)
    requires Inv(s) && Enabled(s, Flush(thread))
    ensures var t := After(s, Flush(thread));
            && Flatten(t.batches) == t.enqueued == s.enqueued
            && (s.queue != [] ==> Thread(thread) in t.inFlight && t.batches[t.inFlight[Thread(thread)]] == s.queue)
  {
    StepKeepsInv(s, Flush(thread));
    var t := After(s, Flush(thread));
    assert t.queue == [] && Flatten(t.batches) + t.queue == t.enqueued;
  }

  lemma StepHolds<T>(s: State<T>, step: Step<T>, holder: Holder)
    requires Inv(s) && Enabled(s, step) && holder in s.inFlight
    ensures var t := After(s, step);
            s.inFlight[holder] in t.sent || (holder in t.inFlight && t.inFlight[holder] == s.inFlight[holder])
  {
    hide Flatten, Counting, Fills;
    if step.Send? || step.WorkerSend? || step.DropSend? {
      var t := After(s, step);
      assert t.sent[|s.sent|] in t.sent;
    }
  }

  /** Whoever took a batch holds it until it is sent. */
  lemma {:induction false} HeldUntilSent<T>(s: State<T>, steps: seq<Step<T>>, holder: Holder)
    requires Inv(s) && CanRun(s, steps) && holder in s.inFlight
    ensures var t := Run(s, steps);
            s.inFlight[holder] in t.sent || (holder in t.inFlight && t.inFlight[holder] == s.inFlight[holder])
    decreases |steps|
  {
    hide Inv, After;
    if steps != [] {
      var t := After(s, steps[0]);
      StepKeepsInv(s, steps[0]);
      StepHolds(s, steps[0], holder);
      if holder in t.inFlight && t.inFlight[holder] == s.inFlight[holder] {
        HeldUntilSent(t, steps[1..], holder);
      } else {
        SentStaysSent(t, steps[1..]);
      }
    }
  }

  lemma {:induction false} SentStaysSent<T>(s: State<T>, steps: seq<Step<T>>)
    requires CanRun(s, steps)
    ensures s.sent <= Run(s, steps).sent
    decreases |steps|
  {
    if steps != [] {
      StepGrows(s, steps[0]);
      SentStaysSent(After(s, steps[0]), steps[1..]);
    }
  }

  ghost predicate WasSent<T>(s: State<T>, batch: seq<Entry<T>>) {
    exists i: nat :: i < |s.sent| && s.sent[i] < |s.batches| && s.batches[s.sent[i]] == batch
  }

  /** So when the thread that flushed holds nothing any more, what was queued is sent. */
  lemma FlushSends<T>(s: State<T>, thread: nat, steps: seq<Step<T>>)
    requires Inv(s) && Enabled(s, Flush(thread)) && s.queue != []
    requires CanRun(After(s, Flush(thread)), steps)
    requires Thread(thread) !in Run(After(s, Flush(thread)), steps).inFlight
    ensures var t := Run(After(s, Flush(thread)), steps);
            WasSent(t, s.queue)
  {
    var flushed := After(s, Flush(thread));
    FlushTakesAll(s, thread);
    StepKeepsInv(s, Flush(thread));
    HeldUntilSent(flushed, steps, Thread(thread));
    BatchesStay(flushed, steps);
    var b: nat := flushed.inFlight[Thread(thread)];
    var t := Run(flushed, steps);
    var i: nat :| i < |t.sent| && t.sent[i] == b;
    assert t.batches[t.sent[i]] == s.queue;
  }

  lemma {:induction false} BatchesStay<T>(s: State<T>, steps: seq<Step<T>>)
    requires CanRun(s, steps)
    ensures s.batches <= Run(s, steps).batches
    decreases |steps|
  {
    if steps != [] {
      StepGrows(s, steps[0]);
      BatchesStay(After(s, steps[0]), steps[1..]);
    }
  }

  // ----- the drop gets there

  /** How many steps can still be taken once the flag is set. */
  ghost function StepsLeft<T>(s: State<T>): nat {
    var dropper := match s.dropper
      case FlagSet => 5
      case Notified => 4
      case Joined => 3
      case DropSending => 1
      case _ => 0;
    var worker := match s.worker
      case Waiting => 3
      case Spawned => 2
      case Woken => 2
      case Checking => 1
      case Awake => 1
      case _ => 0;
    dropper + worker
  }

  lemma StepCountsDown<T>(s: State<T>, step: Step<T>)
    requires Inv(s) && s.flag && Enabled(s, step)
    ensures After(s, step).flag && StepsLeft(After(s, step)) < StepsLeft(s)
  {
  }

  /** Once the flag is set, at most eight more steps of any thread fit into a run. */
  lemma {:induction false} RunsEndAfterFlag<T>(s: State<T>, steps: seq<Step<T>>)
    requires Inv(s) && s.flag && CanRun(s, steps)
    ensures |steps| <= StepsLeft(s) <= 8
    decreases |steps|
  {
    if steps != [] {
      StepCountsDown(s, steps[0]);
      StepKeepsInv(s, steps[0]);
      RunsEndAfterFlag(After(s, steps[0]), steps[1..]);
    }
  }

  /**
   A drop that was started never gets stuck: until it returns, the dropping thread or the worker can
   take a step. Together with the bound on steps after the flag is set, the drop returns.
   */
  lemma DropNeverStuck<T>(s: State<T>)
    requires Inv(s) && !s.dropper.NotDropping? && !s.dropper.Dropped?
    ensures exists step: Step<T> :: Enabled(s, step) && !step.WorkerWake?
  {
    var step: Step<T> :=
      match s.dropper
      case FlagSet => DropNotify
      case Joined => DropTake
      case DropSending => DropSend
      case _ =>
        match s.worker
        case Checking => WorkerCheck
        case AboutToWait => WorkerWait
        case Awake => WorkerLook(false)
        case Flushing => WorkerTake
        case WorkerSending => WorkerSend
        case Exited => if s.dropper.Notified? then DropJoin else DropSetFlag
        case _ => if s.dropper.WantsLock? then DropSetFlag else WorkerLock;
    assert Enabled(s, step);
  }
}
