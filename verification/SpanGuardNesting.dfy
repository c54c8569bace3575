/** In nested runs the per-span guard stacks behave as one global stack; what breaks when runs do not nest. */
module SpanGuardNesting {
  import opened Wrappers
  import opened SpanGuards

  /** An enter or a `Hub::run` still open: whose it is, the hub before it, and the hub it switched to. */
  datatype Frame = Frame(owner: Option<SpanId>, saved: Hub, entered: Hub)

  predicate Switches(f: Frame) {
    f.saved != f.entered
  }

  /** The thread with a single stack, where every end restores what the matching start saved. */
  datatype Global = Global(hub: Hub, frames: seq<Frame>, spans: map<SpanId, Hub>, next: Hub)

  function Opened(g: Global, owner: Option<SpanId>, hub: Hub): Global {
    g.(hub := hub, frames := g.frames + [Frame(owner, g.hub, hub)], next := if hub < g.next then g.next else hub + 1)
  }

  function Ended(g: Global): Global {
    if g.frames == [] then g
    else g.(hub := g.frames[|g.frames| - 1].saved, frames := g.frames[..|g.frames| - 1])
  }

  function GlobalStep(e: Event, g: Global): Global {
    match e
    case NewSpan(id) => g.(spans := g.spans[id := g.hub])
    case Close(id) => g.(spans := g.spans - {id})
    case Enter(id) => Opened(g, Some(id), if id in g.spans then g.next else g.hub)
    case RunBegins(hub) => Opened(g, None, hub)
    case Exit(_) => Ended(g)
    case RunEnds => Ended(g)
  }

  predicate TopIs(frames: seq<Frame>, owner: Option<SpanId>) {
    frames != [] && frames[|frames| - 1].owner == owner
  }

  /** An end meets the newest open start, and no span is created or closed while entered. */
  predicate Nests(e: Event, g: Global) {
    match e
    case NewSpan(id) => forall i :: 0 <= i < |g.frames| ==> g.frames[i].owner != Some(id)
    case Close(id) => forall i :: 0 <= i < |g.frames| ==> g.frames[i].owner != Some(id)
    case Exit(id) => TopIs(g.frames, Some(id))
    case RunEnds => TopIs(g.frames, None)
    case _ => true
  }

  function Start(hub: Hub): State {
    State(hub, map[], [], map[], map[], hub + 1)
  }

  function Run(events: seq<Event>, hub: Hub): State {
    if events == [] then Start(hub)
    else Stepped(events[|events| - 1], Run(events[..|events| - 1], hub))
  }

  function GlobalRun(events: seq<Event>, hub: Hub): Global {
    if events == [] then Global(hub, [], map[], hub + 1)
    else GlobalStep(events[|events| - 1], GlobalRun(events[..|events| - 1], hub))
  }

  predicate Nested(events: seq<Event>, hub: Hub) {
    events != [] ==>
      && Nested(events[..|events| - 1], hub)
      && Nests(events[|events| - 1], GlobalRun(events[..|events| - 1], hub))
  }

  /** The guards of one span, filtered out of the global stack. */
  function GuardsOf(frames: seq<Frame>, id: SpanId): seq<SwitchGuard> {
    if frames == [] then [] else
    var f := frames[|frames| - 1];
    GuardsOf(frames[..|frames| - 1], id)
    + if f.owner == Some(id) && Switches(f) then [SwitchGuard(Some(f.saved))] else []
  }

  function RunsOf(frames: seq<Frame>): seq<SwitchGuard> {
    if frames == [] then [] else
    var f := frames[|frames| - 1];
    RunsOf(frames[..|frames| - 1])
    + if f.owner == None then [SwitchGuard(if Switches(f) then Some(f.saved) else None)] else []
  }

  ghost predicate Refines(s: State, g: Global) {
    && s.hub == g.hub && s.spans == g.spans && s.next == g.next
    && s.runs == RunsOf(g.frames)
    && Agrees(s.guards, g.frames)
  }

  ghost predicate Agrees(guards: Guards, frames: seq<Frame>) {
    && (forall id :: StackOf(guards, id) == GuardsOf(frames, id))
    && (forall id :: id in guards ==> guards[id] != [])
  }

  /** The hub a stack of frames leaves in force. */
  function InForce(frames: seq<Frame>, initial: Hub): Hub {
    if frames == [] then initial else
    var f := frames[|frames| - 1];
    if Switches(f) then f.entered else InForce(frames[..|frames| - 1], initial)
  }

  /** Every frame saved what the one below switched to, and the newest one's hub is current. */
  ghost predicate Chained(g: Global, initial: Hub) {
    && (forall i :: 0 < i < |g.frames| ==> g.frames[i].saved == g.frames[i - 1].entered)
    && (g.frames != [] ==> g.frames[0].saved == initial && g.hub == g.frames[|g.frames| - 1].entered)
    && (g.frames == [] ==> g.hub == initial)
  }

  ghost predicate Bounded(g: Global, initial: Hub) {
    && g.hub < g.next && initial < g.next
    && forall i :: 0 <= i < |g.frames| ==> g.frames[i].saved < g.next && g.frames[i].entered < g.next
  }

  /** A span switches on every enter or on none. */
  ghost predicate Tracked(g: Global) {
    forall i :: 0 <= i < |g.frames| && g.frames[i].owner.Some? ==>
      (Switches(g.frames[i]) <==> g.frames[i].owner.value in g.spans)
  }

  /** A span switches to a hub newer than any saved before. */
  ghost predicate Forked(g: Global) {
    forall i, j :: 0 <= i <= j < |g.frames| && g.frames[j].owner.Some? && Switches(g.frames[j]) ==>
      g.frames[i].saved < g.frames[j].entered
  }

  ghost predicate Inv(g: Global, initial: Hub) {
    Chained(g, initial) && Bounded(g, initial) && Tracked(g) && Forked(g)
  }

  lemma StepKeepsChain(e: Event, g: Global, initial: Hub)
    requires Chained(g, initial)
    ensures Chained(GlobalStep(e, g), initial)
  {}

  lemma StepKeepsBounds(e: Event, g: Global, initial: Hub)
    requires Bounded(g, initial)
    ensures Bounded(GlobalStep(e, g), initial)
  {}

  lemma StepKeepsTracking(e: Event, g: Global, initial: Hub)
    requires Bounded(g, initial) && Tracked(g) && Nests(e, g)
    ensures Tracked(GlobalStep(e, g))
  {}

  lemma StepKeepsForks(e: Event, g: Global, initial: Hub)
    requires Bounded(g, initial) && Forked(g)
    ensures Forked(GlobalStep(e, g))
  {}

  lemma StepKeepsInv(e: Event, g: Global, initial: Hub)
    requires Inv(g, initial) && Nests(e, g)
    ensures Inv(GlobalStep(e, g), initial)
  {
    StepKeepsChain(e, g, initial);
    StepKeepsBounds(e, g, initial);
    StepKeepsTracking(e, g, initial);
    StepKeepsForks(e, g, initial);
  }

  lemma GuardsAbove(frames: seq<Frame>, f: Frame, id: SpanId)
    ensures GuardsOf(frames + [f], id)
            == GuardsOf(frames, id) + if f.owner == Some(id) && Switches(f) then [SwitchGuard(Some(f.saved))] else []
  {
    assert (frames + [f])[..|frames|] == frames;
  }

  lemma PushAgrees(guards: Guards, frames: seq<Frame>, id: SpanId, f: Frame)
    requires Agrees(guards, frames) && f.owner == Some(id) && Switches(f)
    ensures Agrees(guards[id := StackOf(guards, id) + [SwitchGuard(Some(f.saved))]], frames + [f])
  {
    hide GuardsOf;
    forall k {:trigger GuardsOf(frames + [f], k)}
      ensures StackOf(guards[id := StackOf(guards, id) + [SwitchGuard(Some(f.saved))]], k) == GuardsOf(frames + [f], k)
    {
      assert StackOf(guards, k) == GuardsOf(frames, k);
      GuardsAbove(frames, f, k);
    }
  }

  lemma NoPushAgrees(guards: Guards, frames: seq<Frame>, f: Frame)
    requires f.owner == None || !Switches(f)
    ensures Agrees(guards, frames + [f]) <==> Agrees(guards, frames)
  {
    hide GuardsOf;
    forall k
      ensures GuardsOf(frames + [f], k) == GuardsOf(frames, k)
    {
      GuardsAbove(frames, f, k);
    }
  }

  lemma PopAgrees(guards: Guards, frames: seq<Frame>, id: SpanId, f: Frame)
    requires Agrees(guards, frames + [f]) && f.owner == Some(id) && Switches(f)
    ensures var stack := StackOf(guards, id);
            && stack != [] && stack[|stack| - 1] == SwitchGuard(Some(f.saved))
            && Agrees(WithStack(guards, id, stack[..|stack| - 1]), frames)
  {
    hide GuardsOf;
    assert StackOf(guards, id) == GuardsOf(frames + [f], id);
    GuardsAbove(frames, f, id);
    var guards' := WithStack(guards, id, StackOf(guards, id)[..|StackOf(guards, id)| - 1]);
    forall k
      ensures StackOf(guards', k) == GuardsOf(frames, k)
    {
      assert StackOf(guards, k) == GuardsOf(frames + [f], k);
      GuardsAbove(frames, f, k);
    }
  }

  lemma RunsAbove(frames: seq<Frame>, f: Frame)
    ensures RunsOf(frames + [f])
            == RunsOf(frames)
               + if f.owner == None then [SwitchGuard(if Switches(f) then Some(f.saved) else None)] else []
  {
    assert (frames + [f])[..|frames|] == frames;
  }

  lemma OpenRefines(s: State, g: Global, initial: Hub, e: Event)
    requires Refines(s, g) && Bounded(g, initial) && (e.Enter? || e.RunBegins?)
    ensures Refines(Stepped(e, s), GlobalStep(e, g))
  {
    hide Agrees, RunsOf;
    var g' := GlobalStep(e, g);
    var f := g'.frames[|g.frames|];
    RunsAbove(g.frames, f);
    if e.Enter? && e.id in s.spans {
      PushAgrees(s.guards, g.frames, e.id, f);
    } else {
      NoPushAgrees(s.guards, g.frames, f);
    }
  }

  lemma EndRefines(s: State, g: Global, initial: Hub, e: Event)
    requires Refines(s, g) && Chained(g, initial) && Tracked(g) && Nests(e, g) && (e.Exit? || e.RunEnds?)
    ensures Refines(Stepped(e, s), GlobalStep(e, g))
  {
    var below, top := g.frames[..|g.frames| - 1], g.frames[|g.frames| - 1];
    assert g.hub == top.entered && g.frames == below + [top];
    if e.Exit? && !Switches(top) {
      NotTracked(g.frames, e.id);
      assert StackOf(s.guards, e.id) == GuardsOf(g.frames, e.id) == [];
      assert s.guards - {e.id} == s.guards;
    }
    hide Agrees, RunsOf, Chained, Tracked;
    RunsAbove(below, top);
    if e.Exit? && Switches(top) {
      PopAgrees(s.guards, below, e.id, top);
    } else {
      NoPushAgrees(s.guards, below, top);
    }
  }

  /** A span without sentry data has no guards, however often it is entered. */
  lemma {:induction false} NotTracked(frames: seq<Frame>, id: SpanId)
    requires forall i :: 0 <= i < |frames| && frames[i].owner == Some(id) ==> !Switches(frames[i])
    ensures GuardsOf(frames, id) == []
  {
    if frames != [] {
      NotTracked(frames[..|frames| - 1], id);
    }
  }

  /** The map of guard stacks is the global stack filtered by span, with no empty stack in it. */
  lemma {:induction false} NestedRunsRefine(events: seq<Event>, hub: Hub)
    requires Nested(events, hub)
    ensures Refines(Run(events, hub), GlobalRun(events, hub)) && Inv(GlobalRun(events, hub), hub)
  {
    if events != [] {
      var init, e := events[..|events| - 1], events[|events| - 1];
      NestedRunsRefine(init, hub);
      var s, g := Run(init, hub), GlobalRun(init, hub);
      StepKeepsInv(e, g, hub);
      if e.Enter? || e.RunBegins? {
        OpenRefines(s, g, hub, e);
      } else if e.Exit? || e.RunEnds? {
        EndRefines(s, g, hub, e);
      }
    }
  }

  /** When everything entered has been exited, the initial hub is current and no guard is left. */
  lemma BalancedRunEndsWhereItBegan(events: seq<Event>, hub: Hub)
    requires Nested(events, hub) && GlobalRun(events, hub).frames == []
    ensures Run(events, hub).hub == hub && Run(events, hub).guards == map[] && Run(events, hub).runs == []
  {
    NestedRunsRefine(events, hub);
    var s := Run(events, hub);
    forall id
      ensures id !in s.guards
    {
      assert StackOf(s.guards, id) == GuardsOf([], id);
    }
  }

  /** The events take no frame away that was there before them. */
  predicate StaysAbove(before: seq<Event>, events: seq<Event>, hub: Hub) {
    events != [] ==>
      && StaysAbove(before, events[..|events| - 1], hub)
      && |GlobalRun(before + events, hub).frames| >= |GlobalRun(before, hub).frames|
  }

  lemma {:induction false} FramesStay(before: seq<Event>, events: seq<Event>, hub: Hub)
    requires StaysAbove(before, events, hub)
    ensures GlobalRun(before, hub).frames <= GlobalRun(before + events, hub).frames
  {
    if events == [] {
      assert before + events == before;
    } else {
      FramesStay(before, events[..|events| - 1], hub);
      assert (before + events)[..|before + events| - 1] == before + events[..|events| - 1];
    }
  }

  /** An exit restores the hub that was current before the matching enter, whatever nests in between. */
  lemma ExitRestoresTheHubBeforeEnter(before: seq<Event>, id: SpanId, inner: seq<Event>, hub: Hub)
    requires Nested(before + [Enter(id)] + inner + [Exit(id)], hub)
    requires StaysAbove(before + [Enter(id)], inner, hub)
    requires |GlobalRun(before + [Enter(id)] + inner, hub).frames| == |GlobalRun(before, hub).frames| + 1
    ensures Run(before + [Enter(id)] + inner + [Exit(id)], hub).hub == Run(before, hub).hub
  {
    var entered, all := before + [Enter(id)], before + [Enter(id)] + inner + [Exit(id)];
    assert entered[..|before|] == before;
    assert all[..|all| - 1] == entered + inner;
    FramesStay(entered, inner, hub);
    NestedRunsRefine(all, hub);
    assert all[..|before|] == before;
    NestedPrefix(all, |before|, hub);
    NestedRunsRefine(before, hub);
  }

  lemma {:induction false} NestedPrefix(events: seq<Event>, n: nat, hub: Hub)
    requires n <= |events| && Nested(events, hub)
    ensures Nested(events[..n], hub)
    decreases |events|
  {
    if n < |events| {
      var init := events[..|events| - 1];
      assert init[..n] == events[..n];
      NestedPrefix(init, n, hub);
    } else {
      assert events[..n] == events;
    }
  }

  /** The newest open enter of a span that has sentry data. */
  predicate NewestOf(frames: seq<Frame>, id: SpanId, k: nat) {
    && k < |frames| && frames[k].owner == Some(id) && Switches(frames[k])
    && forall j :: k < j < |frames| ==> !(frames[j].owner == Some(id) && Switches(frames[j]))
  }

  lemma {:induction false} NewestGuard(frames: seq<Frame>, id: SpanId, k: nat)
    requires NewestOf(frames, id, k)
    ensures var guards := GuardsOf(frames, id);
            guards != [] && guards[|guards| - 1] == SwitchGuard(Some(frames[k].saved))
  {
    if k + 1 < |frames| {
      NewestGuard(frames[..|frames| - 1], id, k);
    }
  }

  predicate AnySwitch(frames: seq<Frame>) {
    exists i :: 0 <= i < |frames| && Switches(frames[i])
  }

  /** What is in force is decided by the newest frame that switched. */
  lemma {:induction false} InForceJoined(a: seq<Frame>, b: seq<Frame>, initial: Hub)
    ensures InForce(a + b, initial) == if AnySwitch(b) then InForce(b, initial) else InForce(a, initial)
  {
    if b == [] {
      assert a + b == a;
    } else {
      var last := |b| - 1;
      assert (a + b)[..|a + b| - 1] == a + b[..last];
      InForceJoined(a, b[..last], initial);
      if AnySwitch(b) && !Switches(b[last]) {
        assert AnySwitch(b[..last]);
      }
    }
  }

  lemma {:induction false} CurrentIsInForce(frames: seq<Frame>, g: Global, n: nat, initial: Hub)
    requires Chained(g, initial) && n <= |g.frames| && frames == g.frames[..n]
    ensures InForce(frames, initial) == if n == 0 then initial else g.frames[n - 1].entered
  {
    if n > 0 {
      CurrentIsInForce(frames[..n - 1], g, n - 1, initial);
    }
  }

  /** A hub switched to by a span is newer than what any frame below it saved. */
  lemma {:induction false} SwitchedHubIsNewer(g: Global, b: seq<Frame>, k: nat, n: nat, initial: Hub)
    requires Forked(g) && k < n <= |g.frames| && b == g.frames[k + 1..n] && AnySwitch(b)
    requires forall j :: k < j < |g.frames| ==> g.frames[j].owner.Some?
    ensures g.frames[k].saved < InForce(b, initial)
    decreases n
  {
    var last := |b| - 1;
    assert b[last] == g.frames[n - 1] && b[..last] == g.frames[k + 1..n - 1];
    if !Switches(b[last]) {
      assert AnySwitch(b[..last]);
      SwitchedHubIsNewer(g, b[..last], k, n - 1, initial);
    }
  }

  lemma ExitRestoresWhatItSaved(events: seq<Event>, hub: Hub, id: SpanId, k: nat)
    requires Nested(events, hub)
    requires NewestOf(GlobalRun(events, hub).frames, id, k)
    ensures Run(events + [Exit(id)], hub).hub == GlobalRun(events, hub).frames[k].saved
  {
    hide GlobalRun, Nested, NewestOf, Chained, Bounded, Tracked, Forked, GuardsOf, RunsOf, WithStack;
    var g := GlobalRun(events, hub);
    NestedRunsRefine(events, hub);
    NewestGuard(g.frames, id, k);
    RunLonger(events, Exit(id), hub);
    hide Run;
    assert StackOf(Run(events, hub).guards, id) == GuardsOf(g.frames, id);
  }

  /**
   Out of order, an exit leaves the hub that the spans still entered would have in force exactly when no
   span entered since has switched the hub.
   */
  lemma ExitIsRightIffNothingSwitchedSince(events: seq<Event>, hub: Hub, id: SpanId, k: nat)
    requires Nested(events, hub)
    requires NewestOf(GlobalRun(events, hub).frames, id, k)
    requires forall j :: k < j < |GlobalRun(events, hub).frames| ==> GlobalRun(events, hub).frames[j].owner.Some?
    ensures var frames := GlobalRun(events, hub).frames;
            Run(events + [Exit(id)], hub).hub == InForce(frames[..k] + frames[k + 1..], hub)
            <==> !AnySwitch(frames[k + 1..])
  {
    var g := GlobalRun(events, hub);
    var below, above := g.frames[..k], g.frames[k + 1..];
    NestedRunsRefine(events, hub);
    ExitRestoresWhatItSaved(events, hub, id, k);
    hide Run, GlobalRun, Nested, NewestOf, Chained, Bounded, Tracked, Forked, Refines;
    InForceJoined(below, above, hub);
    CurrentIsInForce(below, g, k, hub);
    if AnySwitch(above) {
      SwitchedHubIsNewer(g, above, k, |g.frames|, hub);
    }
  }

  /** Two spans entered and then exited in the order they were entered leave a fork current for good. */
  lemma NotNestedLeavesAFork(hub: Hub)
    ensures var events := [NewSpan(0), NewSpan(1), Enter(0), Enter(1), Exit(0), Exit(1)];
            Run(events, hub).hub == hub + 1 && Run(events, hub).guards == map[]
  {
    var events := [NewSpan(0), NewSpan(1), Enter(0), Enter(1), Exit(0), Exit(1)];
    var spans := map[0 := hub, 1 := hub];
    RunNext(events, 0, hub);
    RunNext(events, 1, hub);
    RunNext(events, 2, hub);
    RunNext(events, 3, hub);
    RunNext(events, 4, hub);
    RunNext(events, 5, hub);
    assert events[..6] == events && events[..0] == [];
    var created := Stepped(NewSpan(1), Stepped(NewSpan(0), Start(hub)));
    assert created == Start(hub).(spans := spans);
    EnteredTwice(hub, created);
    ExitedTwice(hub, Run(events[..4], hub));
  }

  lemma EnteredTwice(hub: Hub, s: State)
    requires 0 in s.spans && 1 in s.spans && s == Start(hub).(spans := s.spans)
    ensures var t := Stepped(Enter(1), Stepped(Enter(0), s));
            && t.hub == hub + 2 && t.runs == [] && t.next == hub + 3
            && t.guards == map[0 := [SwitchGuard(Some(hub))], 1 := [SwitchGuard(Some(hub + 1))]]
  {
    var a, b := SwitchGuard(Some(hub)), SwitchGuard(Some(hub + 1));
    assert [] + [a] == [a] && [] + [b] == [b];
    assert Stepped(Enter(0), s).guards == map[0 := [a]];
    assert map[0 := [a]][1 := [b]] == map[0 := [a], 1 := [b]];
  }

  lemma ExitedTwice(hub: Hub, entered: State)
    requires entered.guards == map[0 := [SwitchGuard(Some(hub))], 1 := [SwitchGuard(Some(hub + 1))]]
    ensures var t := Stepped(Exit(1), Stepped(Exit(0), entered));
            t.hub == hub + 1 && t.guards == map[]
  {
    var a, b := SwitchGuard(Some(hub)), SwitchGuard(Some(hub + 1));
    assert map[0 := [a], 1 := [b]] - {0} == map[1 := [b]];
    assert map[1 := [b]] - {1} == map[];
    assert Stepped(Exit(0), entered).guards == map[1 := [b]];
  }

  lemma RunNext(events: seq<Event>, n: nat, hub: Hub)
    requires n < |events|
    ensures Run(events[..n + 1], hub) == Stepped(events[n], Run(events[..n], hub))
  {
    assert events[..n + 1][..n] == events[..n];
  }

  /** The span neither begins nor ends in these events. */
  predicate LeavesSpan(events: seq<Event>, id: SpanId) {
    forall i :: 0 <= i < |events| ==> events[i] != NewSpan(id) && events[i] != Close(id)
  }

  lemma {:induction false} OriginStays(events: seq<Event>, more: seq<Event>, id: SpanId, hub: Hub)
    requires id in Run(events, hub).spans && LeavesSpan(more, id)
    ensures id in Run(events + more, hub).spans && Run(events + more, hub).spans[id] == Run(events, hub).spans[id]
  {
    if more == [] {
      assert events + more == events;
    } else {
      var n := |more| - 1;
      OriginStays(events, more[..n], id, hub);
      assert (events + more)[..|events| + n] == events + more[..n];
      var before, e := Run(events + more[..n], hub), more[n];
      assert Run(events + more, hub) == Stepped(e, before);
      SpansStay(e, before, id);
    }
  }

  lemma SpansStay(e: Event, s: State, id: SpanId)
    requires id in s.spans && e != NewSpan(id) && e != Close(id)
    ensures id in Stepped(e, s).spans && Stepped(e, s).spans[id] == s.spans[id]
  {}

  /** Wherever it is entered, and however often, a span runs on a new fork of the hub that was current when it began. */
  lemma EntersAForkOfItsOrigin(before: seq<Event>, between: seq<Event>, id: SpanId, hub: Hub)
    requires LeavesSpan(between, id)
    ensures var created, reached := Run(before, hub), Run(before + [NewSpan(id)] + between, hub);
            var entered := Run(before + [NewSpan(id)] + between + [Enter(id)], hub);
            && entered.hub == reached.next && entered.hub in entered.forks
            && entered.forks[entered.hub] == created.hub
            && entered.next == reached.next + 1
  {
    var begun := before + [NewSpan(id)];
    RunLonger(before, NewSpan(id), hub);
    OriginStays(begun, between, id, hub);
    RunLonger(begun + between, Enter(id), hub);
  }

  lemma RunLonger(events: seq<Event>, e: Event, hub: Hub)
    ensures Run(events + [e], hub) == Stepped(e, Run(events, hub))
  {
    assert (events + [e])[..|events|] == events;
  }
}
