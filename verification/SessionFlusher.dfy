/**
 The queue of session updates: single updates wait to be sent in chunks, and in request mode finished
 sessions are counted per minute and distinct id instead.
 */
module SessionFlushing {
  import opened Wrappers
  import opened Sequences

  const MAX_SESSION_ITEMS: nat := 100
  const NANOS_PER_SECOND: nat := 1_000_000_000

  datatype Status = Ok | Exited | Crashed | Abnormal

  /** The attributes that all sessions of a report share. */
  type Attributes = string

  /** An update; `started` counts nanoseconds since the Unix epoch. */
  datatype Update = Update(
    sessionId: nat,
    distinctId: Option<string>,
    started: nat,
    init: bool,
    status: Status,
    errors: nat,
    attributes: Attributes)

  datatype Mode = Application | Request

  datatype Key = Key(started: nat, distinctId: Option<string>)

  datatype Counts = Counts(exited: nat, errored: nat, abnormal: nat, crashed: nat)

  datatype Aggregated = Aggregated(buckets: map<Key, Counts>, attributes: Attributes)

  datatype Envelope = Aggregates(report: Aggregated) | Updates(updates: seq<Update>)

  /** What is queued, and the envelopes handed to the sender so far. */
  datatype Contents = Contents(individual: seq<Update>, aggregated: Option<Aggregated>, envelopes: seq<Envelope>)

  const NO_COUNTS: Counts := Counts(0, 0, 0, 0)

  /** The second at which the minute of a session begins. */
  function MinuteOf(started: nat): nat {
    started / NANOS_PER_SECOND / 60 * 60
  }

  function KeyOf(update: Update): Key {
    Key(MinuteOf(update.started), update.distinctId)
  }

  /** The counts with one more session in them; a session that is still open adds nothing. */
  function Counted(counts: Counts, update: Update): Counts {
    match update.status
    case Exited =>
      if update.errors > 0 then counts.(errored := counts.errored + 1) else counts.(exited := counts.exited + 1)
    case Crashed => counts.(crashed := counts.crashed + 1)
    case Abnormal => counts.(abnormal := counts.abnormal + 1)
    case Ok => counts
  }

  function BucketOf(buckets: map<Key, Counts>, key: Key): Counts {
    if key in buckets then buckets[key] else NO_COUNTS
  }

  /** The report with one more session; a new report takes the attributes of its first session. */
  function Aggregate(aggregated: Option<Aggregated>, update: Update): Aggregated {
    var report := aggregated.GetOr(Aggregated(map[], update.attributes));
    var key := KeyOf(update);
    report.(buckets := report.buckets[key := Counted(BucketOf(report.buckets, key), update)])
  }

  /** A queue cut into chunks of at most 100 updates. */
  function Chunks(updates: seq<Update>): seq<seq<Update>>
    decreases |updates|
  {
    if |updates| <= MAX_SESSION_ITEMS then [updates]
    else [updates[..MAX_SESSION_ITEMS]] + Chunks(updates[MAX_SESSION_ITEMS..])
  }

  function AsEnvelopes(chunks: seq<seq<Update>>): (r: seq<Envelope>)
    ensures |r| == |chunks|
  {
    seq(|chunks|, i requires 0 <= i < |chunks| => Updates(chunks[i]))
  }

  lemma OneMoreChunk(done: seq<seq<Update>>, chunk: seq<Update>, left: seq<seq<Update>>)
    ensures AsEnvelopes(done + [chunk]) == AsEnvelopes(done) + [Updates(chunk)]
    ensures done + ([chunk] + left) == (done + [chunk]) + left
  {
  }

  function Flushed(c: Contents): Contents {
    var reports := if c.aggregated.Some? then [Aggregates(c.aggregated.value)] else [];
    var updates := if c.individual == [] then [] else AsEnvelopes(Chunks(c.individual));
    Contents([], None, c.envelopes + reports + updates)
  }

  function Enqueued(mode: Mode, c: Contents, update: Update): Contents {
    if mode.Application? || !update.init then
      var pushed := c.(individual := c.individual + [update]);
      if |pushed.individual| >= MAX_SESSION_ITEMS then Flushed(pushed) else pushed
    else
      c.(aggregated := Some(Aggregate(c.aggregated, update)))
  }

  class SessionFlusher {
    const mode: Mode
    var individual: seq<Update>
    var aggregated: Option<Aggregated>
    var envelopes: seq<Envelope>

    function Value(): Contents
      reads this
    {
      Contents(individual, aggregated, envelopes)
    }

    constructor (mode: Mode)
      ensures this.mode == mode && Value() == Contents([], None, [])
    {
      this.mode := mode;
      individual, aggregated, envelopes := [], None, [];
    }

    method SendEnvelope(envelope: Envelope)
      modifies this`envelopes
      ensures envelopes == old(envelopes) + [envelope]
    {
      envelopes := envelopes + [envelope];
    }

    /** Sends the updates in chunks, the way the loop over the queue does. */
    method SendUpdates(queue: seq<Update>)
      requires queue != []
      modifies this`envelopes
      ensures envelopes == old(envelopes) + AsEnvelopes(Chunks(queue))
    {
      var envelope: seq<Update> := [];
      var items := 0;
      ghost var start := 0;
      ghost var done: seq<seq<Update>> := [];
      for i := 0 to |queue|
        invariant 0 <= start <= i && items == i - start <= MAX_SESSION_ITEMS
        invariant i > 0 ==> items > 0
        invariant envelope == queue[start..i]
        invariant envelopes == old(envelopes) + AsEnvelopes(done)
        invariant done + Chunks(queue[start..]) == Chunks(queue)
      {
        if items >= MAX_SESSION_ITEMS {
          ghost var left := queue[start..];
          assert left[..MAX_SESSION_ITEMS] == envelope;
          assert left[MAX_SESSION_ITEMS..] == queue[i..];
          assert Chunks(left) == [envelope] + Chunks(queue[i..]);
          OneMoreChunk(done, envelope, Chunks(queue[i..]));
          SendEnvelope(Updates(envelope));
          done, start := done + [envelope], i;
          envelope := [];
          items := 0;
        }
        envelope := envelope + [queue[i]];
        items := items + 1;
      }
      assert envelope == queue[start..];
      OneMoreChunk(done, envelope, []);
      SendEnvelope(Updates(envelope));
    }

    method FlushQueueInternal()
      modifies this`individual, this`aggregated, this`envelopes
      ensures Value() == Flushed(old(Value()))
    {
      var queue := individual;
      individual := [];
      var aggregate := aggregated;
      aggregated := None;

      if aggregate.Some? {
        SendEnvelope(Aggregates(aggregate.value));
      }
      if queue == [] {
        return;
      }
      SendUpdates(queue);
    }

    method Enqueue(update: Update)
      modifies this`individual, this`aggregated, this`envelopes
      ensures Value() == Enqueued(mode, old(Value()), update)
    {
      if mode.Application? || !update.init {
        individual := individual + [update];
        if |individual| >= MAX_SESSION_ITEMS {
          FlushQueueInternal();
        }
        return;
      }

      var aggregate := if aggregated.Some? then aggregated.value else Aggregated(map[], update.attributes);
      var seconds := update.started / NANOS_PER_SECOND / 60 * 60;
      var key := Key(seconds, update.distinctId);
      var bucket := if key in aggregate.buckets then aggregate.buckets[key] else NO_COUNTS;
      match update.status {
        case Exited =>
          if update.errors > 0 {
            bucket := bucket.(errored := bucket.errored + 1);
          } else {
            bucket := bucket.(exited := bucket.exited + 1);
          }
        case Crashed =>
          bucket := bucket.(crashed := bucket.crashed + 1);
        case Abnormal =>
          bucket := bucket.(abnormal := bucket.abnormal + 1);
        case Ok =>
      }
      aggregated := Some(aggregate.(buckets := aggregate.buckets[key := bucket]));
    }

    method Flush()
      modifies this`individual, this`aggregated, this`envelopes
      ensures Value() == Flushed(old(Value()))
    {
      FlushQueueInternal();
    }
  }

  // ----- chunks

  /** Chunks put together are the queue; all but the last hold 100 updates, and the last at least one. */
  lemma {:induction false} ChunksSplitTheQueue(updates: seq<Update>)
    requires updates != []
    ensures var chunks := Chunks(updates);
            && chunks != []
            && (forall i :: 0 <= i < |chunks| - 1 ==> |chunks[i]| == MAX_SESSION_ITEMS)
            && 1 <= |chunks[|chunks| - 1]| <= MAX_SESSION_ITEMS
            && Flatten(chunks) == updates
    decreases |updates|
  {
    var chunks := Chunks(updates);
    if |updates| <= MAX_SESSION_ITEMS {
      FlattenLonger([], updates);
      assert chunks == [] + [updates];
    } else {
      var first := updates[..MAX_SESSION_ITEMS];
      ChunksSplitTheQueue(updates[MAX_SESSION_ITEMS..]);
      FlattenJoined([first], Chunks(updates[MAX_SESSION_ITEMS..]));
      FlattenLonger([], first);
      assert [first] == [] + [first];
      assert first + updates[MAX_SESSION_ITEMS..] == updates;
    }
  }

  // ----- runs of calls

  datatype Call = Enqueue(update: Update) | Flush

  function After(mode: Mode, calls: seq<Call>): Contents
    decreases |calls|
  {
    if calls == [] then Contents([], None, []) else
    var n := |calls| - 1;
    var before := After(mode, calls[..n]);
    match calls[n]
    case Enqueue(update) => Enqueued(mode, before, update)
    case Flush => Flushed(before)
  }

  /** The updates that wait to be sent one by one. */
  function Individual(mode: Mode, calls: seq<Call>): seq<Update>
    decreases |calls|
  {
    if calls == [] then [] else
    var n := |calls| - 1;
    Individual(mode, calls[..n])
    + if calls[n].Enqueue? && (mode.Application? || !calls[n].update.init) then [calls[n].update] else []
  }

  function Plus(a: Counts, b: Counts): Counts {
    Counts(a.exited + b.exited, a.errored + b.errored, a.abnormal + b.abnormal, a.crashed + b.crashed)
  }

  /** How a counted session ended. */
  datatype Class = Clean | WithErrors | AbnormalEnd | CrashedEnd

  predicate IsOf(update: Update, class_: Class) {
    match class_
    case Clean => update.status == Exited && update.errors == 0
    case WithErrors => update.status == Exited && update.errors != 0
    case AbnormalEnd => update.status == Abnormal
    case CrashedEnd => update.status == Crashed
  }

  /** The session belongs to this user, and started in the minute that begins at this second. */
  predicate InBucket(update: Update, key: Key) {
    && update.distinctId == key.distinctId
    && key.started % 60 == 0
    && key.started * NANOS_PER_SECOND <= update.started < (key.started + 60) * NANOS_PER_SECOND
  }

  /** In request mode a session is counted if its first update comes at its end. */
  predicate IsCounted(mode: Mode, call: Call) {
    mode == Request && call.Enqueue? && call.update.init
  }

  /** For one minute and distinct id: how many sessions of a class were enqueued to be counted. */
  function HowMany(mode: Mode, calls: seq<Call>, key: Key, class_: Class): nat
    decreases |calls|
  {
    if calls == [] then 0 else
    var n := |calls| - 1;
    HowMany(mode, calls[..n], key, class_)
    + if IsCounted(mode, calls[n]) && InBucket(calls[n].update, key) && IsOf(calls[n].update, class_) then 1 else 0
  }

  function Expected(mode: Mode, calls: seq<Call>, key: Key): Counts {
    Counts(
      exited := HowMany(mode, calls, key, Clean),
      errored := HowMany(mode, calls, key, WithErrors),
      abnormal := HowMany(mode, calls, key, AbnormalEnd),
      crashed := HowMany(mode, calls, key, CrashedEnd))
  }

  /** A bucket stands for the whole minute in which its sessions started. */
  lemma KeyIsTheMinute(update: Update, key: Key)
    ensures KeyOf(update) == key <==> InBucket(update, key)
  {
    var seconds := update.started / NANOS_PER_SECOND;
    assert seconds * NANOS_PER_SECOND <= update.started < (seconds + 1) * NANOS_PER_SECOND;
    assert MinuteOf(update.started) <= seconds < MinuteOf(update.started) + 60;
    if InBucket(update, key) {
      assert key.started <= seconds < key.started + 60;
    }
  }

  /** One more call counts as much as it should. */
  lemma ExpectedLonger(mode: Mode, calls: seq<Call>, key: Key)
    requires calls != []
    ensures var n := |calls| - 1;
            var before := Expected(mode, calls[..n], key);
            Expected(mode, calls, key) == if IsCounted(mode, calls[n]) && KeyOf(calls[n].update) == key
                                          then Counted(before, calls[n].update) else before
  {
    hide KeyOf, InBucket;
    if calls[|calls| - 1].Enqueue? {
      KeyIsTheMinute(calls[|calls| - 1].update, key);
    }
  }

  function ReportedBy(envelope: Envelope, key: Key): Counts {
    if envelope.Aggregates? then BucketOf(envelope.report.buckets, key) else NO_COUNTS
  }

  /** What the sent reports say about one minute and distinct id, all together. */
  function Reported(envelopes: seq<Envelope>, key: Key): Counts {
    if envelopes == [] then NO_COUNTS
    else Plus(Reported(envelopes[..|envelopes| - 1], key), ReportedBy(envelopes[|envelopes| - 1], key))
  }

  function Pending(c: Contents, key: Key): Counts {
    if c.aggregated.Some? then BucketOf(c.aggregated.value.buckets, key) else NO_COUNTS
  }

  function SentUpdates(envelopes: seq<Envelope>): seq<Update> {
    if envelopes == [] then [] else
    var last := envelopes[|envelopes| - 1];
    SentUpdates(envelopes[..|envelopes| - 1]) + if last.Updates? then last.updates else []
  }

  lemma ReportedLonger(envelopes: seq<Envelope>, last: Envelope, key: Key)
    ensures Reported(envelopes + [last], key) == Plus(Reported(envelopes, key), ReportedBy(last, key))
    ensures SentUpdates(envelopes + [last]) == SentUpdates(envelopes) + if last.Updates? then last.updates else []
  {
    assert (envelopes + [last])[..|envelopes|] == envelopes;
  }

  lemma AsEnvelopesLonger(chunks: seq<seq<Update>>)
    requires chunks != []
    ensures var n := |chunks| - 1; AsEnvelopes(chunks) == AsEnvelopes(chunks[..n]) + [Updates(chunks[n])]
  {
  }

  /** Chunks add the updates in them to what was sent, and nothing to the counts. */
  lemma {:induction false} ChunksReportNothing(envelopes: seq<Envelope>, chunks: seq<seq<Update>>, key: Key)
    ensures Reported(envelopes + AsEnvelopes(chunks), key) == Reported(envelopes, key)
    ensures SentUpdates(envelopes + AsEnvelopes(chunks)) == SentUpdates(envelopes) + Flatten(chunks)
  {
    hide Reported, SentUpdates, BucketOf;
    if chunks == [] {
      assert envelopes + AsEnvelopes(chunks) == envelopes;
      assert SentUpdates(envelopes) + [] == SentUpdates(envelopes);
    } else {
      var n := |chunks| - 1;
      ChunksReportNothing(envelopes, chunks[..n], key);
      AsEnvelopesLonger(chunks);
      hide AsEnvelopes;
      var before, last := envelopes + AsEnvelopes(chunks[..n]), Updates(chunks[n]);
      assert envelopes + AsEnvelopes(chunks) == before + [last];
      ReportedLonger(before, last, key);
      Associate(SentUpdates(envelopes), Flatten(chunks[..n]), chunks[n]);
    }
  }

  /** Flushing moves the pending counts and updates to the sent ones. */
  lemma FlushMovesEverything(c: Contents, key: Key)
    ensures Pending(Flushed(c), key) == NO_COUNTS && Flushed(c).individual == [] && Flushed(c).aggregated == None
    ensures c.aggregated.Some? ==> c.envelopes + [Aggregates(c.aggregated.value)] <= Flushed(c).envelopes
    ensures Reported(Flushed(c).envelopes, key) == Plus(Reported(c.envelopes, key), Pending(c, key))
    ensures SentUpdates(Flushed(c).envelopes) == SentUpdates(c.envelopes) + c.individual
  {
    hide Chunks, Reported, SentUpdates;
    var reported := c.envelopes;
    if c.aggregated.Some? {
      ReportedLonger(c.envelopes, Aggregates(c.aggregated.value), key);
      reported := c.envelopes + [Aggregates(c.aggregated.value)];
    } else {
      assert c.envelopes + [] == c.envelopes;
    }
    if c.individual == [] {
      assert Flushed(c).envelopes == reported;
    } else {
      assert Flushed(c).envelopes == reported + AsEnvelopes(Chunks(c.individual));
      ChunksSplitTheQueue(c.individual);
      ChunksReportNothing(reported, Chunks(c.individual), key);
    }
  }

  /** The books balance for one minute and distinct id. */
  ghost predicate Balanced(c: Contents, key: Key, expected: Counts, individual: seq<Update>) {
    && Plus(Pending(c, key), Reported(c.envelopes, key)) == expected
    && SentUpdates(c.envelopes) + c.individual == individual
  }

  lemma PlusNothing(a: Counts)
    ensures Plus(a, NO_COUNTS) == a
    ensures Plus(NO_COUNTS, a) == a
  {
  }

  lemma NothingSent(envelopes: seq<Envelope>, key: Key)
    requires envelopes == []
    ensures Reported(envelopes, key) == NO_COUNTS && SentUpdates(envelopes) == []
  {
  }

  lemma NothingIsBalanced(c: Contents, key: Key)
    requires c.individual == [] && c.aggregated.None? && c.envelopes == []
    ensures Balanced(c, key, NO_COUNTS, c.individual)
  {
    hide Reported, SentUpdates, BucketOf, Plus;
    NothingSent(c.envelopes, key);
    PlusNothing(NO_COUNTS);
  }

  lemma FlushedBalance(c: Contents, key: Key, expected: Counts, individual: seq<Update>)
    requires Balanced(c, key, expected, individual)
    ensures Balanced(Flushed(c), key, expected, individual)
  {
    hide Flushed, Reported, SentUpdates;
    FlushMovesEverything(c, key);
    assert individual + [] == individual;
  }

  lemma AggregateBalance(c: Contents, update: Update, key: Key, expected: Counts, individual: seq<Update>)
    requires Balanced(c, key, expected, individual)
    ensures Balanced(c.(aggregated := Some(Aggregate(c.aggregated, update))), key,
                     if KeyOf(update) == key then Counted(expected, update) else expected, individual)
  {
    hide Reported, SentUpdates, KeyOf;
  }

  lemma PushBalance(c: Contents, update: Update, key: Key, expected: Counts, individual: seq<Update>)
    requires Balanced(c, key, expected, individual)
    ensures Balanced(c.(individual := c.individual + [update]), key, expected, individual + [update])
  {
    hide Reported, SentUpdates;
    assert SentUpdates(c.envelopes) + (c.individual + [update]) == individual + [update];
  }

  lemma EnqueuedBalance(mode: Mode, c: Contents, update: Update, key: Key, expected: Counts, individual: seq<Update>)
    requires Balanced(c, key, expected, individual) && |c.individual| < MAX_SESSION_ITEMS
    ensures |Enqueued(mode, c, update).individual| < MAX_SESSION_ITEMS
    ensures mode.Application? || !update.init ==>
              Balanced(Enqueued(mode, c, update), key, expected, individual + [update])
    ensures mode.Request? && update.init ==>
              Balanced(Enqueued(mode, c, update), key,
                       if KeyOf(update) == key then Counted(expected, update) else expected, individual)
  {
    hide Balanced, Aggregate, Counted, KeyOf, Flushed;
    if mode.Application? || !update.init {
      var pushed := c.(individual := c.individual + [update]);
      PushBalance(c, update, key, expected, individual);
      FlushMovesEverything(pushed, key);
      FlushedBalance(pushed, key, expected, individual + [update]);
    } else {
      AggregateBalance(c, update, key, expected, individual);
    }
  }

  lemma NothingExpected(mode: Mode, key: Key)
    ensures Expected(mode, [], key) == NO_COUNTS
  {}

  /**
   For every minute and distinct id, the counts still pending plus those in the reports already sent are
   the numbers of finished sessions enqueued in each class; updates that are not counted are sent
   or still queued, in order.
   */
  lemma {:induction false} Accounting(mode: Mode, calls: seq<Call>, key: Key)
    ensures Balanced(After(mode, calls), key, Expected(mode, calls, key), Individual(mode, calls))
    ensures |After(mode, calls).individual| < MAX_SESSION_ITEMS
  {
    hide Aggregate, Counted, KeyOf, Flushed, Enqueued, Balanced, Expected;
    if calls == [] {
      NothingIsBalanced(After(mode, calls), key);
      assert Expected(mode, [], key) == NO_COUNTS by { NothingExpected(mode, key); }
    } else {
      var n := |calls| - 1;
      var before := After(mode, calls[..n]);
      var expected, individual := Expected(mode, calls[..n], key), Individual(mode, calls[..n]);
      Accounting(mode, calls[..n], key);
      assert individual + [] == individual;
      match calls[n]
      case Flush =>
        ExpectedLonger(mode, calls, key);
        FlushMovesEverything(before, key);
        FlushedBalance(before, key, expected, individual);
      case Enqueue(update) =>
        ExpectedLonger(mode, calls, key);
        EnqueuedBalance(mode, before, update, key, expected, individual);
    }
  }

  /** The call began a report that no flush has taken since. */
  predicate BeganReport(mode: Mode, calls: seq<Call>, i: nat) {
    && i < |calls| && IsCounted(mode, calls[i]) && After(mode, calls[..i]).aggregated.None?
    && forall k :: i < k <= |calls| ==> After(mode, calls[..k]).aggregated.Some?
  }

  lemma BeganStays(mode: Mode, calls: seq<Call>, i: nat)
    requires calls != [] && BeganReport(mode, calls[..|calls| - 1], i) && After(mode, calls).aggregated.Some?
    ensures BeganReport(mode, calls, i)
  {
    hide After;
    assert calls[..|calls| - 1][..i] == calls[..i] && calls[..|calls|] == calls;
    forall k | i < k <= |calls| ensures After(mode, calls[..k]).aggregated.Some? {
      if k < |calls| {
        assert calls[..|calls| - 1][..k] == calls[..k];
      }
    }
  }

  lemma EnqueueNamesReport(mode: Mode, c: Contents, update: Update)
    requires Enqueued(mode, c, update).aggregated.Some?
    ensures var name := Enqueued(mode, c, update).aggregated.value.attributes;
            if c.aggregated.Some? then c.aggregated.value.attributes == name
            else IsCounted(mode, Enqueue(update)) && update.attributes == name
  {
    hide Flushed, KeyOf, Counted, BucketOf;
    FlushMovesEverything(c.(individual := c.individual + [update]), Key(0, None));
  }

  lemma CallNamesReport(mode: Mode, calls: seq<Call>)
    requires calls != [] && After(mode, calls).aggregated.Some?
    ensures var n := |calls| - 1;
            var before, name := After(mode, calls[..n]).aggregated, After(mode, calls).aggregated.value.attributes;
            if before.Some? then before.value.attributes == name
            else IsCounted(mode, calls[n]) && calls[n].update.attributes == name
  {
    var n := |calls| - 1;
    hide Flushed, Enqueued;
    match calls[n]
    case Flush => FlushMovesEverything(After(mode, calls[..n]), Key(0, None));
    case Enqueue(update) => EnqueueNamesReport(mode, After(mode, calls[..n]), update);
  }

  /** A report has the attributes of the session that began it. */
  lemma {:induction false} ReportNamesFirst(mode: Mode, calls: seq<Call>)
    requires After(mode, calls).aggregated.Some?
    ensures exists i: nat ::
              BeganReport(mode, calls, i) && After(mode, calls).aggregated.value.attributes == calls[i].update.attributes
  {
    assert calls != [];
    hide After;
    var n := |calls| - 1;
    CallNamesReport(mode, calls);
    if After(mode, calls[..n]).aggregated.Some? {
      ReportNamesFirst(mode, calls[..n]);
      var i: nat :| BeganReport(mode, calls[..n], i)
        && After(mode, calls[..n]).aggregated.value.attributes == calls[..n][i].update.attributes;
      BeganStays(mode, calls, i);
      assert calls[..n][i] == calls[i];
    } else {
      assert calls[..n + 1] == calls;
      assert BeganReport(mode, calls, n);
    }
  }

  lemma FullQueueFlushed(c: Contents)
    requires |c.individual| == MAX_SESSION_ITEMS
    ensures forall e :: e in Flushed(c).envelopes && e !in c.envelopes && e.Updates? ==> |e.updates| == MAX_SESSION_ITEMS
  {
    assert Chunks(c.individual) == [c.individual];
    assert AsEnvelopes([c.individual]) == [Updates(c.individual)];
  }

  lemma EnqueueSendsFullOnly(mode: Mode, c: Contents, update: Update)
    requires |c.individual| < MAX_SESSION_ITEMS
    ensures forall e :: e in Enqueued(mode, c, update).envelopes && e !in c.envelopes && e.Updates? ==>
                          |e.updates| == MAX_SESSION_ITEMS
  {
    hide Flushed, Aggregate;
    var pushed := c.(individual := c.individual + [update]);
    if |pushed.individual| == MAX_SESSION_ITEMS {
      FullQueueFlushed(pushed);
    }
  }

  /** As long as nobody asks for a flush, updates are sent a hundred at a time. */
  lemma {:induction false} FullChunksOnly(mode: Mode, calls: seq<Call>)
    requires forall call :: call in calls ==> call.Enqueue?
    ensures forall e :: e in After(mode, calls).envelopes && e.Updates? ==> |e.updates| == MAX_SESSION_ITEMS
  {
    if calls != [] {
      var n := |calls| - 1;
      FullChunksOnly(mode, calls[..n]);
      Accounting(mode, calls[..n], Key(0, None));
      EnqueueSendsFullOnly(mode, After(mode, calls[..n]), calls[n].update);
      hide Enqueued, Balanced;
    }
  }
}
