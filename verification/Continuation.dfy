/** Starting transactions: continuing or rejecting an incoming trace, and deciding whether to sample. */
module Continuation {
  import opened Wrappers
  import opened Sampling
  import opened TraceHeaders
  import opened Propagation

  /** `incoming` is there when the trace came in over the wire, with the organization it named, if any. */
  datatype TransactionContext = TransactionContext(
    name: string, traceId: TraceId, parentSpanId: Option<SpanId>, spanId: SpanId, sampled: Option<bool>,
    incoming: Option<Option<nat>>)

  datatype SamplingStrategy = FixedRate(rate: real) | Function(sampler: TransactionContext -> real) | Disabled

  datatype Options = Options(strategy: SamplingStrategy, orgId: Option<nat>, dsnOrgId: Option<nat>, strict: bool)

  /** What is random when a transaction starts: ids, and a draw from 0 up to, but not, 1. */
  datatype Random = Random(traceId: TraceId, spanId: SpanId, draw: real)

  function New(name: string, random: Random): TransactionContext {
    TransactionContext(name, random.traceId, None, random.spanId, None, None)
  }

  function ContinueFromContext(name: string, context: Context, random: Random): TransactionContext {
    TransactionContext(name, context.traceId, Some(context.spanId), random.spanId, context.sampled, Some(context.orgId))
  }

  /** Continues the trace the headers carry, or starts a new one when they carry none. */
  method ContinueFromHeaders(name: string, headers: seq<Header>, random: Random) returns (ctx: TransactionContext)
    ensures ctx == Continued(name, headers, random)
  {
    var result := TryFromHeaders(headers);
    match result
    case Ok(context) => ctx := ContinueFromContext(name, context, random);
    case Err(_) => ctx := New(name, random);
  }

  function Continued(name: string, headers: seq<Header>, random: Random): TransactionContext {
    match Folded(headers)
    case Ok(context) => ContinueFromContext(name, context.(orgId := LastSome(Orgs(headers))), random)
    case Err(_) => New(name, random)
  }

  function ShouldContinueTrace(incoming: Option<nat>, sdk: Option<nat>, strict: bool): bool {
    match (incoming, sdk)
    case (Some(i), Some(s)) => i == s
    case (None, None) => true
    case _ => !strict
  }

  /** A trace is refused by a known other organization, and by any doubt when the caller is strict. */
  lemma ContinuesUnlessForeign(incoming: Option<nat>, sdk: Option<nat>, strict: bool)
    ensures ShouldContinueTrace(incoming, sdk, strict)
            <==> incoming == sdk || (!strict && (incoming == None || sdk == None))
  {}

  function SdkOrgId(options: Options): Option<nat> {
    if options.orgId.Some? then options.orgId else options.dsnOrgId
  }

  predicate Rejects(options: Options, ctx: TransactionContext) {
    ctx.incoming.Some? && !ShouldContinueTrace(ctx.incoming.value, SdkOrgId(options), options.strict)
  }

  function RejectIncomingTrace(ctx: TransactionContext, random: Random): TransactionContext {
    ctx.(traceId := random.traceId, parentSpanId := None, sampled := None, incoming := None)
  }

  function SampleRate(strategy: SamplingStrategy, ctx: TransactionContext): real {
    match strategy
    case FixedRate(rate) => if ctx.sampled == None then rate else if ctx.sampled.value then 1.0 else 0.0
    case Function(sampler) => sampler(ctx)
    case Disabled => 0.0
  }

  /** A started transaction: its trace context, its decision, and whether there is a client to send it. */
  datatype Started = Started(traceId: TraceId, parentSpanId: Option<SpanId>, spanId: SpanId, sampled: bool,
                             sampleRate: real, name: Option<string>)

  /** `Transaction::new`; without a client the transaction only passes on what it inherited. */
  function Start(client: Option<Options>, given: TransactionContext, random: Random): Started {
    match client
    case Some(options) =>
      var ctx := if Rejects(options, given) then RejectIncomingTrace(given, random) else given;
      var rate := SampleRate(options.strategy, ctx);
      Started(ctx.traceId, ctx.parentSpanId, ctx.spanId, SampleShouldSend(rate, random.draw), rate, Some(ctx.name))
    case None =>
      var rate := match given.sampled { case Some(true) => 1.0 case _ => 0.0 };
      Started(given.traceId, given.parentSpanId, given.spanId, given.sampled.GetOr(false), rate, None)
  }

  /** The header a transaction, or a span of it, sends on. */
  function OutgoingHeader(t: Started): Header {
    (SENTRY_TRACE, SentryTraceHeader(Context(t.traceId, t.spanId, Some(t.sampled), None)))
  }

  /** An accepted trace keeps its id and parent, and under a fixed rate its decision, whatever the draw. */
  lemma AcceptedKeepsTrace(options: Options, ctx: TransactionContext, random: Random)
    requires !Rejects(options, ctx)
    ensures var t := Start(Some(options), ctx, random);
            && t.traceId == ctx.traceId && t.parentSpanId == ctx.parentSpanId && t.spanId == ctx.spanId
            && (options.strategy.FixedRate? && ctx.sampled.Some? ==> t.sampled == ctx.sampled.value)
  {}

  /** Where an inherited decision does not win: a sampler is asked anyway, and disabled sampling says no. */
  lemma InheritedDecisionWins(options: Options, ctx: TransactionContext)
    requires !Rejects(options, ctx) && ctx.sampled.Some?
    ensures (forall random: Random :: 0.0 <= random.draw < 1.0 ==>
               Start(Some(options), ctx, random).sampled == ctx.sampled.value)
            <==> var s := options.strategy;
                 || s.FixedRate?
                 || (s.Disabled? && !ctx.sampled.value)
                 || (s.Function? && if ctx.sampled.value then s.sampler(ctx) >= 1.0 else s.sampler(ctx) <= 0.0)
  {
    var s := options.strategy;
    var trace, span := seq(16, _ => 0), seq(8, _ => 0);
    if s.Function? && 0.0 < s.sampler(ctx) < 1.0 {
      var low, high := Random(trace, span, 0.0), Random(trace, span, s.sampler(ctx));
      assert Start(Some(options), ctx, low).sampled && !Start(Some(options), ctx, high).sampled;
    } else {
      var any := Random(trace, span, 0.0);
      assert forall random: Random :: Start(Some(options), ctx, random).sampled == Start(Some(options), ctx, any).sampled;
    }
  }

  /** A rejected trace leaves no trace: the transaction is the one that would have started without headers. */
  lemma RejectedStartsAnew(options: Options, name: string, headers: seq<Header>, random: Random)
    requires Rejects(options, Continued(name, headers, random))
    ensures Start(Some(options), Continued(name, headers, random), random)
            == Start(Some(options), New(name, random), random)
  {}

  /** The organization the client speaks for: the one it was given, or else the one its DSN names. */
  predicate SpeaksFor(options: Options, org: Option<nat>) {
    (options.orgId != None ==> org == options.orgId) && (options.orgId == None ==> org == options.dsnOrgId)
  }

  /**
   A client refuses headers exactly when they carry a trace and name, last of all, an organization that is not
   its own; when only one side names an organization, it refuses them exactly when it is strict.
   */
  lemma RefusedIffForeign(options: Options, name: string, headers: seq<Header>, random: Random, own: Option<nat>)
    requires SpeaksFor(options, own)
    ensures var named := LastSome(Orgs(headers));
            Rejects(options, Continued(name, headers, random))
            <==> Folded(headers).Ok? && named != own && ((named != None && own != None) || options.strict)
  {}

  /** What a transaction started from headers takes from them, and what is its own. */
  lemma StartedFromHeaders(options: Options, name: string, headers: seq<Header>, random: Random)
    ensures var given := Continued(name, headers, random);
            var t := Start(Some(options), given, random);
            && t.name == Some(name) && t.spanId == random.spanId
            && (Folded(headers).Ok? && !Rejects(options, given) ==>
                  && t.traceId == Folded(headers).value.traceId
                  && t.parentSpanId == Some(Folded(headers).value.spanId)
                  && given.sampled == Folded(headers).value.sampled)
            && (Folded(headers).Err? || Rejects(options, given) ==>
                  t.traceId == random.traceId && t.parentSpanId == None)
            && (Folded(headers).Err? ==> given.sampled == None)
  {}

  /** How each strategy decides: by the inherited decision or a draw below the rate, by the sampler's rate, or not at all. */
  lemma DecisionOfStrategy(options: Options, ctx: TransactionContext, random: Random)
    requires !Rejects(options, ctx) && 0.0 <= random.draw < 1.0
    ensures var t := Start(Some(options), ctx, random);
            match options.strategy
            case FixedRate(rate) =>
              if ctx.sampled == None then t.sampleRate == rate && (t.sampled <==> random.draw < rate)
              else t.sampleRate == (if ctx.sampled == Some(true) then 1.0 else 0.0) && t.sampled == ctx.sampled.value
            case Function(sampler) => t.sampleRate == sampler(ctx) && (t.sampled <==> random.draw < sampler(ctx))
            case Disabled => t.sampleRate == 0.0 && !t.sampled
  {
    SentIffDrawnBelow(SampleRate(options.strategy, ctx), random.draw);
  }

  /** Without a client nothing is refused and nothing drawn: a yes passes through, anything else is a no. */
  lemma WithoutClientPassesOn(ctx: TransactionContext, random: Random)
    ensures var t := Start(None, ctx, random);
            && t.traceId == ctx.traceId && t.parentSpanId == ctx.parentSpanId && t.spanId == ctx.spanId
            && (t.sampled <==> ctx.sampled == Some(true)) && (t.sampleRate == if t.sampled then 1.0 else 0.0)
            && t.name == None
  {}

  lemma OneHeader(t: Started)
    ensures Folded([OutgoingHeader(t)]) == Ok(Context(t.traceId, t.spanId, Some(t.sampled), None))
    ensures Orgs([OutgoingHeader(t)]) == []
  {
    var h := OutgoingHeader(t);
    RoundTrip(Context(t.traceId, t.spanId, Some(t.sampled), None), "", "");
    assert "" + h.1 + "" == h.1;
    NotBoth(h);
    assert IsTrace(h);
    FoldedLonger([], h);
    assert [] + [h] == [h];
    assert [h][..0] == [];
  }

  /** One hop: the next process reads the header of this one and starts a transaction of its own. */
  function Hop(t: Started, client: Option<Options>, name: string, random: Random): Started {
    Start(client, Continued(name, [OutgoingHeader(t)], random), random)
  }

  /** The next process does not insist on the organization that the header does not name. */
  predicate Accepts(client: Option<Options>) {
    client.Some? ==> client.value.strategy.FixedRate? && (client.value.strict ==> SdkOrgId(client.value) == None)
  }

  lemma HopKeepsTrace(t: Started, client: Option<Options>, name: string, random: Random)
    requires Accepts(client)
    ensures var next := Hop(t, client, name, random);
            && next.traceId == t.traceId && next.parentSpanId == Some(t.spanId) && next.spanId == random.spanId
            && next.sampled == t.sampled
  {
    OneHeader(t);
  }

  datatype Service = Service(client: Option<Options>, name: string, random: Random)

  function Travel(t: Started, services: seq<Service>): Started {
    if services == [] then t else
    var s := services[|services| - 1];
    Hop(Travel(t, services[..|services| - 1]), s.client, s.name, s.random)
  }

  /** A decision made once holds through any number of processes, in one trace. */
  lemma {:induction false} DecisionTravels(t: Started, services: seq<Service>)
    requires forall i :: 0 <= i < |services| ==> Accepts(services[i].client)
    ensures Travel(t, services).traceId == t.traceId && Travel(t, services).sampled == t.sampled
  {
    if services != [] {
      var init, s := services[..|services| - 1], services[|services| - 1];
      DecisionTravels(t, init);
      HopKeepsTrace(Travel(t, init), s.client, s.name, s.random);
    }
  }
}
