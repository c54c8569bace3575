/** From a captured event to an envelope: scope, processors, callbacks, session and sampling, in this order. */
module EventPipeline {
  import opened Wrappers
  import opened Sampling
  import F = SessionFlushing
  import S = Sessions

  type Text = string

  /** The parts of an event the pipeline looks at; id 0 is the nil id. */
  datatype Event = Event(
    id: nat, sdk: Option<Text>, level: S.Level, exceptions: seq<S.Exception>, user: Option<Text>,
    breadcrumbs: seq<Text>, extra: map<Text, Text>, tags: map<Text, Text>, contexts: map<Text, Text>,
    transaction: Option<Text>, fingerprint: seq<Text>, release: Option<Text>, environment: Option<Text>,
    serverName: Option<Text>, platform: Text)

  /** An event processor, an integration or a callback: any function that changes the event or drops it. */
  type Processor = Event -> Option<Event>

  /** A scope, read for one event; `trace` is the trace context of its span or of itself. */
  datatype Scope = Scope(
    level: Option<S.Level>, user: Option<Text>, breadcrumbs: seq<Text>, extra: map<Text, Text>,
    tags: map<Text, Text>, contexts: map<Text, Text>, trace: Text, transaction: Option<Text>,
    fingerprint: Option<seq<Text>>, processors: seq<Processor>, session: S.Session?, attachments: seq<nat>)

  datatype Options = Options(
    sdk: Text, release: Option<Text>, environment: Option<Text>, serverName: Option<Text>,
    integrations: seq<Processor>, beforeSend: Option<Processor>, sampleRate: real, applicationSessions: bool)

  datatype Reason = EventProcessor | BeforeSend | SampleRate

  datatype Item = EventItem(event: Event) | SessionItem(update: F.Update) | AttachmentItem(attachment: nat)
                | ReportItem(losses: seq<Reason>)

  /** The event with the scope's data under its own; only the level and keys set twice go by the scope. */
  function Filled(e: Event, s: Scope): Event {
    var contexts := e.contexts + s.contexts;
    e.(level := s.level.GetOr(e.level),
       user := if e.user.Some? then e.user else s.user,
       breadcrumbs := e.breadcrumbs + s.breadcrumbs,
       extra := e.extra + s.extra,
       tags := e.tags + s.tags,
       contexts := if "trace" in contexts then contexts else contexts["trace" := s.trace],
       transaction := if e.transaction.Some? then e.transaction else s.transaction,
       fingerprint := if IsDefault(e.fingerprint) && s.fingerprint.Some? then s.fingerprint.value else e.fingerprint)
  }

  predicate IsDefault(fingerprint: seq<Text>) {
    |fingerprint| == 1 && (fingerprint[0] == "{{ default }}" || fingerprint[0] == "{{default}}")
  }

  /** Through processors in turn, until one drops the event. */
  function Through(processors: seq<Processor>, e: Event): Option<Event> {
    if processors == [] then Some(e) else
    match processors[0](e)
    case None => None
    case Some(e') => Through(processors[1..], e')
  }

  function Identified(e: Event, options: Options, freshId: nat): Event {
    e.(id := if e.id == 0 then freshId else e.id, sdk := if e.sdk.Some? then e.sdk else Some(options.sdk))
  }

  function Defaulted(e: Event, options: Options): Event {
    e.(release := if e.release.Some? then e.release else options.release,
       environment := if e.environment.Some? then e.environment else options.environment,
       serverName := if e.serverName.Some? then e.serverName else options.serverName,
       platform := if e.platform == "other" then "native" else e.platform)
  }

  /** The event as the sampling decision finds it, or why it was dropped before. */
  function Offered(e: Event, scope: Option<Scope>, options: Options, freshId: nat): Result<Event, Reason> {
    var identified := Identified(e, options, freshId);
    var scoped := if scope.None? then Some(identified)
                  else Through(scope.value.processors, Filled(identified, scope.value));
    var integrated := if scoped.None? then None else Through(options.integrations, scoped.value);
    if integrated.None? then Err(EventProcessor) else
    var ready := Defaulted(integrated.value, options);
    if options.beforeSend.None? then Ok(ready) else
    match options.beforeSend.value(ready)
    case Some(e') => Ok(e')
    case None => Err(BeforeSend)
  }

  /** What becomes of an event: the event to send, or the reason it is lost. */
  function Prepared(e: Event, scope: Option<Scope>, options: Options, freshId: nat, draw: real): Result<Event, Reason> {
    match Offered(e, scope, options, freshId)
    case Err(reason) => Err(reason)
    case Ok(e') => if SampleShouldSend(options.sampleRate, draw) then Ok(e') else Err(SampleRate)
  }

  lemma PreparedIsOffered(e: Event, scope: Option<Scope>, options: Options, freshId: nat, draw: real)
    ensures Prepared(e, scope, options, freshId, draw).Ok? ==>
              Offered(e, scope, options, freshId) == Prepared(e, scope, options, freshId, draw)
  {}

  method RunProcessors(processors: seq<Processor>, e: Event) returns (r: Option<Event>)
    ensures r == Through(processors, e)
  {
    var event := e;
    var i := 0;
    while i < |processors|
      invariant 0 <= i <= |processors|
      invariant Through(processors[i..], event) == Through(processors, e)
    {
      var processed := processors[i](event);
      if processed.None? {
        return None;
      }
      event := processed.value;
      assert processors[i + 1..] == processors[i..][1..];
      i := i + 1;
    }
    return Some(event);
  }

  method ApplyToEvent(scope: Scope, e: Event) returns (r: Option<Event>)
    ensures r == Through(scope.processors, Filled(e, scope))
  {
    var event := e;
    if scope.level.Some? {
      event := event.(level := scope.level.value);
    }
    if event.user.None? && scope.user.Some? {
      event := event.(user := scope.user);
    }
    event := event.(breadcrumbs := event.breadcrumbs + scope.breadcrumbs, extra := event.extra + scope.extra,
                    tags := event.tags + scope.tags, contexts := event.contexts + scope.contexts);
    if "trace" !in event.contexts {
      event := event.(contexts := event.contexts["trace" := scope.trace]);
    }
    if event.transaction.None? && scope.transaction.Some? {
      event := event.(transaction := scope.transaction);
    }
    if IsDefault(event.fingerprint) && scope.fingerprint.Some? {
      event := event.(fingerprint := scope.fingerprint.value);
    }
    r := RunProcessors(scope.processors, event);
  }

  function SessionOf(scope: Option<Scope>): S.Session? {
    if scope.Some? then scope.value.session else null
  }

  method BuildEnvelope(event: Event, scope: Option<Scope>, update: Option<F.Update>, losses: seq<Reason>)
    returns (items: seq<Item>)
    ensures items == EnvelopeFor(event, scope, update, losses)
  {
    items := [EventItem(event)];
    if update.Some? {
      items := items + [SessionItem(update.value)];
    }
    if scope.Some? {
      ghost var first := items;
      var i := 0;
      while i < |scope.value.attachments|
        invariant 0 <= i <= |scope.value.attachments|
        invariant items == first + Attached(scope.value.attachments[..i])
      {
        assert scope.value.attachments[..i + 1][..i] == scope.value.attachments[..i];
        items := items + [AttachmentItem(scope.value.attachments[i])];
        i := i + 1;
      }
      assert scope.value.attachments[..i] == scope.value.attachments;
    }
    if losses != [] {
      items := items + [ReportItem(losses)];
    }
  }

  /** A client whose transport may be gone; what it sent, and the losses it has not reported yet. */
  class Client {
    const options: Options
    var occupied: bool
    var sent: seq<seq<Item>>
    var pending: seq<Reason>

    constructor (options: Options)
      ensures this.options == options && occupied && sent == [] && pending == []
    {
      this.options, occupied, sent, pending := options, true, [], [];
    }

    /**
     One event in: the event out, or one loss recorded. The session hears of it once nothing but sampling
     can drop it.
     */
    method PrepareEvent(e: Event, scope: Option<Scope>, freshId: nat, draw: real) returns (r: Option<Event>)
      modifies this`pending, SessionOf(scope)
      ensures match Prepared(e, scope, options, freshId, draw)
              case Ok(event) => r == Some(event) && pending == old(pending)
              case Err(reason) => r == None && pending == old(pending) + [reason]
      ensures SessionOf(scope) != null ==>
                var offered := Offered(e, scope, options, freshId);
                SessionOf(scope).Value()
                == if offered.Ok? then S.Updated(old(SessionOf(scope).Value()),
                                                 S.Event(offered.value.level, offered.value.exceptions))
                   else old(SessionOf(scope).Value())
    {
      hide Through, Filled, Identified, Defaulted;
      var event := Identified(e, options, freshId);
      if scope.Some? {
        var applied := ApplyToEvent(scope.value, event);
        if applied.None? {
          pending := pending + [EventProcessor];
          return None;
        }
        event := applied.value;
      }
      var integrated := RunProcessors(options.integrations, event);
      if integrated.None? {
        pending := pending + [EventProcessor];
        return None;
      }
      event := Defaulted(integrated.value, options);
      if options.beforeSend.Some? {
        var processed := options.beforeSend.value(event);
        if processed.None? {
          pending := pending + [BeforeSend];
          return None;
        }
        event := processed.value;
      }
      assert Offered(e, scope, options, freshId) == Ok(event);
      if SessionOf(scope) != null {
        SessionOf(scope).UpdateFromEvent(S.Event(event.level, event.exceptions));
      }
      if !SampleShouldSend(options.sampleRate, draw) {
        pending := pending + [SampleRate];
        return None;
      }
      return Some(event);
    }

    /**
     Sends the event with its session's update and the scope's attachments, and every loss not reported yet.
     Without a transport nothing runs: no callback, no loss, no session update.
     */
    method CaptureEvent(e: Event, scope: Option<Scope>, freshId: nat, draw: real) returns (id: nat)
      modifies this`pending, this`sent, SessionOf(scope)
      ensures !occupied ==> id == 0 && sent == old(sent) && pending == old(pending)
      ensures !occupied && SessionOf(scope) != null ==> SessionOf(scope).Value() == old(SessionOf(scope).Value())
      ensures occupied ==>
                match Prepared(e, scope, options, freshId, draw)
                case Err(reason) => id == 0 && sent == old(sent) && pending == old(pending) + [reason]
                case Ok(event) =>
                  && id == event.id && pending == []
                  && sent == old(sent) + [EnvelopeFor(event, scope, UpdateFor(event, scope), old(pending))]
      // in application mode the session's change goes out with the event, in request mode it waits
      ensures occupied && SessionOf(scope) != null && Prepared(e, scope, options, freshId, draw).Ok? ==>
                var event := Prepared(e, scope, options, freshId, draw).value;
                var updated := S.Updated(old(SessionOf(scope).Value()), S.Event(event.level, event.exceptions));
                SessionOf(scope).Value() == if options.applicationSessions then updated.(
                  dirty := false, update := updated.update.(init := updated.update.init && !updated.dirty)) else updated
    {
      PreparedIsOffered(e, scope, options, freshId, draw);
      hide Prepared, Offered, EnvelopeFor;
      id := 0;
      if !occupied {
        return;
      }
      var prepared := PrepareEvent(e, scope, freshId, draw);
      if prepared.None? {
        return;
      }
      id := prepared.value.id;
      var update: Option<F.Update> := None;
      if options.applicationSessions && SessionOf(scope) != null {
        update := SessionOf(scope).CreateEnvelopeItem();
      }
      var items := BuildEnvelope(prepared.value, scope, update, pending);
      sent := sent + [items];
      pending := [];
    }

    /** The update the session has for the envelope, in application mode. */
    twostate function UpdateFor(event: Event, scope: Option<Scope>): Option<F.Update>
      reads this, SessionOf(scope)
    {
      if options.applicationSessions && SessionOf(scope) != null
      then S.Emitted(S.Updated(old(SessionOf(scope).Value()), S.Event(event.level, event.exceptions))).0
      else None
    }
  }

  function Attached(attachments: seq<nat>): seq<Item> {
    if attachments == [] then []
    else Attached(attachments[..|attachments| - 1]) + [AttachmentItem(attachments[|attachments| - 1])]
  }

  function EnvelopeFor(event: Event, scope: Option<Scope>, update: Option<F.Update>, losses: seq<Reason>): seq<Item> {
    [EventItem(event)]
    + (if update.Some? then [SessionItem(update.value)] else [])
    + (if scope.Some? then Attached(scope.value.attachments) else [])
    + (if losses == [] then [] else [ReportItem(losses)])
  }

  // ----- what the stages give an event

  /** The result is the event's own, or else what it is offered. */
  predicate OwnFirst<T(==)>(own: Option<T>, offered: Option<T>, result: Option<T>) {
    (own != None ==> result == own) && (own == None ==> result == offered)
  }

  /** Every key reads as in the upper map where that has it, and as in the lower elsewhere. */
  ghost predicate Overlaid(lower: map<Text, Text>, upper: map<Text, Text>, result: map<Text, Text>) {
    forall k ::
      && (k in result <==> k in lower || k in upper)
      && (k in upper ==> result[k] == upper[k])
      && (k in lower && k !in upper ==> result[k] == lower[k])
  }

  /**
   What a scope gives an event. The level and the keys of the scope win; user, transaction and fingerprint
   are given to events that have none of their own; breadcrumbs come after the event's; a trace context
   is given unless one of the two has it; nothing else changes.
   */
  lemma ScopeFillsIn(e: Event, s: Scope)
    ensures var r := Filled(e, s);
            && OwnFirst(s.level, Some(e.level), Some(r.level))
            && OwnFirst(e.user, s.user, r.user)
            && OwnFirst(e.transaction, s.transaction, r.transaction)
            && r.breadcrumbs == e.breadcrumbs + s.breadcrumbs
            && Overlaid(e.extra, s.extra, r.extra) && Overlaid(e.tags, s.tags, r.tags)
            && Overlaid(map["trace" := s.trace] + e.contexts, s.contexts, r.contexts)
            && r.fingerprint == (
                 if e.fingerprint == ["{{ default }}"] || e.fingerprint == ["{{default}}"]
                 then s.fingerprint.GetOr(e.fingerprint) else e.fingerprint)
            && r == e.(level := r.level, user := r.user, transaction := r.transaction, breadcrumbs := r.breadcrumbs,
                       extra := r.extra, tags := r.tags, contexts := r.contexts, fingerprint := r.fingerprint)
  {}

  /** Before the processors run, the event gets an id unless it has one, and the name of the SDK unless it has one. */
  lemma IdAndSdkFirst(e: Event, options: Options, freshId: nat)
    ensures var r := Identified(e, options, freshId);
            && (e.id != 0 ==> r.id == e.id) && (e.id == 0 ==> r.id == freshId)
            && OwnFirst(e.sdk, Some(options.sdk), r.sdk)
            && r == e.(id := r.id, sdk := r.sdk)
  {}

  /** After them, it gets what the client's options say and it does not say itself. */
  lemma OptionsFillIn(e: Event, options: Options)
    ensures var r := Defaulted(e, options);
            && OwnFirst(e.release, options.release, r.release)
            && OwnFirst(e.environment, options.environment, r.environment)
            && OwnFirst(e.serverName, options.serverName, r.serverName)
            && (e.platform == "other" ==> r.platform == "native") && (e.platform != "other" ==> r.platform == e.platform)
            && r == e.(release := r.release, environment := r.environment, serverName := r.serverName,
                       platform := r.platform)
  {}

  /** The whole pipeline before sampling, as one list of processors: the scope's, the integrations, the callback. */
  function Chain(scope: Option<Scope>, options: Options): seq<Processor> {
    (match scope { case None => [] case Some(s) => s.processors })
    + options.integrations
    + [e => Some(Defaulted(e, options))]
    + match options.beforeSend { case None => [] case Some(callback) => [callback] }
  }

  function Begun(e: Event, scope: Option<Scope>, options: Options, freshId: nat): Event {
    var identified := Identified(e, options, freshId);
    if scope.None? then identified else Filled(identified, scope.value)
  }

  lemma ThroughTwo(a: seq<Processor>, b: seq<Processor>, e: Event)
    ensures Through(a + b, e) == if Through(a, e).None? then None else Through(b, Through(a, e).value)
  {
    ThroughInParts(a + b, e, |a|);
    assert (a + b)[..|a|] == a && (a + b)[|a|..] == b;
  }

  lemma ThroughOne(processor: Processor, e: Event)
    ensures Through([processor], e) == processor(e)
  {
    assert [processor][1..] == [];
  }

  /** Only processors and integrations run before the defaults are filled in, and only the callback after. */
  lemma FirstPartOfChain(e: Event, scope: Option<Scope>, options: Options, freshId: nat)
    ensures var first := (match scope { case None => [] case Some(s) => s.processors }) + options.integrations;
            var begun := Begun(e, scope, options, freshId);
            && Offered(e, scope, options, freshId)
               == match Through(first, begun)
                  case None => Err(EventProcessor)
                  case Some(e') =>
                    if options.beforeSend.None? then Ok(Defaulted(e', options))
                    else match options.beforeSend.value(Defaulted(e', options))
                         case Some(e'') => Ok(e'')
                         case None => Err(BeforeSend)
  {
    var own: seq<Processor> := match scope { case None => [] case Some(s) => s.processors };
    hide Identified, Filled, Defaulted;
    ThroughTwo(own, options.integrations, Begun(e, scope, options, freshId));
    assert Through([], Begun(e, scope, options, freshId)) == Some(Begun(e, scope, options, freshId));
  }

  /**
   An event gets to the sampling decision exactly as it comes through the whole chain. It is lost to the
   callback when the chain without it lets the event through, and otherwise to a processor.
   */
  lemma OfferedIsTheChain(e: Event, scope: Option<Scope>, options: Options, freshId: nat)
    ensures var through := Through(Chain(scope, options), Begun(e, scope, options, freshId));
            var uncalled := Through(Chain(scope, options.(beforeSend := None)), Begun(e, scope, options, freshId));
            Offered(e, scope, options, freshId)
            == if through.Some? then Ok(through.value)
               else if uncalled.Some? then Err(BeforeSend) else Err(EventProcessor)
  {
    FirstPartOfChain(e, scope, options, freshId);
    ChainInParts(scope, options, Begun(e, scope, options, freshId));
    ChainInParts(scope, options.(beforeSend := None), Begun(e, scope, options, freshId));
  }

  lemma ChainInParts(scope: Option<Scope>, options: Options, begun: Event)
    ensures var first := (match scope { case None => [] case Some(s) => s.processors }) + options.integrations;
            Through(Chain(scope, options), begun)
            == match Through(first, begun)
               case None => None
               case Some(e) =>
                 if options.beforeSend.None? then Some(Defaulted(e, options))
                 else options.beforeSend.value(Defaulted(e, options))
  {
    hide Defaulted;
    var first := (match scope { case None => [] case Some(s) => s.processors }) + options.integrations;
    var defaulting: Processor := e => Some(Defaulted(e, options));
    var last := match options.beforeSend { case None => [] case Some(callback) => [callback] };
    assert Chain(scope, options) == (first + [defaulting]) + last;
    ThroughTwo(first + [defaulting], last, begun);
    ThroughTwo(first, [defaulting], begun);
    if Through(first, begun).Some? {
      ThroughOne(defaulting, Through(first, begun).value);
      if options.beforeSend.Some? {
        ThroughOne(options.beforeSend.value, Defaulted(Through(first, begun).value, options));
      }
    }
  }

  /** Sampling comes last, takes nothing else for its reason, and leaves the event as it was offered. */
  lemma SampledLast(e: Event, scope: Option<Scope>, options: Options, freshId: nat, draw: real)
    requires 0.0 <= draw < 1.0
    ensures var offered, prepared := Offered(e, scope, options, freshId), Prepared(e, scope, options, freshId, draw);
            && (prepared == Err(SampleRate) <==> offered.Ok? && options.sampleRate <= draw)
            && (prepared != Err(SampleRate) ==> prepared == offered)
  {
    SentIffDrawnBelow(options.sampleRate, draw);
    hide Through, Filled, Identified, Defaulted;
  }

  lemma {:induction false} AttachedAt(attachments: seq<nat>)
    ensures |Attached(attachments)| == |attachments|
    ensures forall i :: 0 <= i < |attachments| ==> Attached(attachments)[i] == AttachmentItem(attachments[i])
  {
    if attachments != [] {
      AttachedAt(attachments[..|attachments| - 1]);
    }
  }

  /** An envelope holds the event first, then the session's update, the attachments in order, and last the losses. */
  lemma EnvelopeHolds(event: Event, scope: Option<Scope>, update: Option<F.Update>, losses: seq<Reason>)
    ensures var items := EnvelopeFor(event, scope, update, losses);
            var attachments := if scope.Some? then scope.value.attachments else [];
            var front := if update.Some? then 2 else 1;
            && |items| == front + |attachments| + (if losses != [] then 1 else 0)
            && items[0] == EventItem(event)
            && (update.Some? ==> items[1] == SessionItem(update.value))
            && (forall i :: 0 <= i < |attachments| ==> items[front + i] == AttachmentItem(attachments[i]))
            && (losses != [] ==> items[|items| - 1] == ReportItem(losses))
  {
    if scope.Some? {
      AttachedAt(scope.value.attachments);
    }
  }

  /** Going through a list of processors is going through its first part and then, if not dropped, the rest. */
  lemma {:induction false} ThroughInParts(processors: seq<Processor>, e: Event, n: nat)
    requires n <= |processors|
    ensures var first := Through(processors[..n], e);
            Through(processors, e) == if first.None? then None else Through(processors[n..], first.value)
  {
    if n > 0 && processors[0](e).Some? {
      assert processors[1..][..n - 1] == processors[..n][1..] && processors[1..][n - 1..] == processors[n..];
      ThroughInParts(processors[1..], processors[0](e).value, n - 1);
    } else {
      assert processors[0..] == processors;
    }
  }

  /** One event offered to a client, with what is random about it. */
  datatype Offer = Offer(event: Event, scope: Option<Scope>, freshId: nat, draw: real)

  function Sent(offers: seq<Offer>, options: Options): nat {
    if offers == [] then 0 else
    var o := offers[|offers| - 1];
    Sent(offers[..|offers| - 1], options)
    + if Prepared(o.event, o.scope, options, o.freshId, o.draw).Ok? then 1 else 0
  }

  function Losses(sent: seq<seq<Item>>): nat {
    if sent == [] then 0 else
    var items := sent[|sent| - 1];
    Losses(sent[..|sent| - 1])
    + if items != [] && items[|items| - 1].ReportItem? then |items[|items| - 1].losses| else 0
  }

  lemma LossesLonger(sent: seq<seq<Item>>, event: Event, scope: Option<Scope>, update: Option<F.Update>,
                     losses: seq<Reason>)
    ensures Losses(sent + [EnvelopeFor(event, scope, update, losses)]) == Losses(sent) + |losses|
  {
    var items := EnvelopeFor(event, scope, update, losses);
    assert (sent + [items])[..|sent|] == sent;
    if losses == [] && scope.Some? && scope.value.attachments != [] {
      var attached := Attached(scope.value.attachments);
      assert items[|items| - 1] == attached[|attached| - 1];
    }
  }

  /** Of any events captured while there is a transport, each is sent or counted as one loss, reported or pending. */
  method CaptureAll(client: Client, offers: seq<Offer>)
    requires client.occupied
    modifies client, set o | o in offers :: SessionOf(o.scope)
    ensures client.occupied
    ensures |client.sent| == |old(client.sent)| + Sent(offers, client.options)
    ensures |client.pending| + Losses(client.sent)
            == |old(client.pending)| + Losses(old(client.sent)) + |offers| - Sent(offers, client.options)
  {
    hide EnvelopeFor, Prepared;
    var i := 0;
    while i < |offers|
      invariant 0 <= i <= |offers| && client.occupied
      invariant |client.sent| == |old(client.sent)| + Sent(offers[..i], client.options)
      invariant |client.pending| + Losses(client.sent)
                == |old(client.pending)| + Losses(old(client.sent)) + i - Sent(offers[..i], client.options)
    {
      var o := offers[i];
      assert offers[..i + 1][..i] == offers[..i];
      label before:
      ghost var sent, pending := client.sent, client.pending;
      var _ := client.CaptureEvent(o.event, o.scope, o.freshId, o.draw);
      var prepared := Prepared(o.event, o.scope, client.options, o.freshId, o.draw);
      if prepared.Ok? {
        ghost var update := client.UpdateFor@before(prepared.value, o.scope);
        LossesLonger(sent, prepared.value, o.scope, update, pending);
      }
      i := i + 1;
    }
    assert offers[..|offers|] == offers;
  }
}
