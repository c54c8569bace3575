/** The stack of scope layers and the depth-checked guards that pop it. */
module ScopeGuards {
  import opened Wrappers

  datatype Panic = PopFromEmptyStack | PoppedOutOfOrder

  class Stack<L> {
    var top: L
    var layers: seq<L>

    constructor (top: L)
      ensures this.top == top && layers == []
    {
      this.top, layers := top, [];
    }

    method Push()
      modifies this
      ensures top == old(top) && layers == old(layers) + [old(top)]
    {
      layers := layers + [top];
    }

    method Pop() returns (panic: Option<Panic>)
      modifies this
      ensures old(layers) == [] ==> panic == Some(PopFromEmptyStack) && top == old(top) && layers == []
      ensures old(layers) != [] ==> panic == None && layers + [top] == old(layers)
    {
      if layers == [] {
        return Some(PopFromEmptyStack);
      }
      top, layers := layers[|layers| - 1], layers[..|layers| - 1];
      return None;
    }

    function Depth(): nat
      reads this
    {
      |layers|
    }
  }

  /** `Hub::push_scope`; a guard is the depth it will expect. */
  method PushScope<L>(stack: Stack<L>) returns (guard: nat)
    modifies stack
    ensures guard == stack.Depth() == old(stack.Depth()) + 1
    ensures stack.top == old(stack.top) && stack.layers == old(stack.layers) + [old(stack.top)]
  {
    stack.Push();
    guard := stack.Depth();
  }

  /** Dropping a guard pops first and checks afterwards. */
  method DropGuard<L>(stack: Stack<L>, guard: nat) returns (panic: Option<Panic>)
    modifies stack
    ensures old(stack.layers) == [] ==>
              panic == Some(PopFromEmptyStack) && stack.layers == [] && stack.top == old(stack.top)
    ensures old(stack.layers) != [] ==>
              && stack.layers + [stack.top] == old(stack.layers)
              && panic == if old(stack.Depth()) == guard then None else Some(PoppedOutOfOrder)
  {
    var depth := stack.Depth();
    panic := stack.Pop();
    if panic == None && depth != guard {
      panic := Some(PoppedOutOfOrder);
    }
  }

  /** One stack with the guards that are still live, oldest first, and every panic so far. */
  datatype State = State(depth: nat, live: seq<nat>, panics: seq<Panic>)

  datatype Step = Push | Drop(index: nat)

  /** A drop of a guard that is not live is no step. */
  function Stepped(step: Step, s: State): State {
    match step
    case Push => State(s.depth + 1, s.live + [s.depth + 1], s.panics)
    case Drop(i) =>
      if i >= |s.live| then s else
      var rest := s.live[..i] + s.live[i + 1..];
      if s.depth == 0 then State(0, rest, s.panics + [PopFromEmptyStack])
      else State(s.depth - 1, rest, if s.depth == s.live[i] then s.panics else s.panics + [PoppedOutOfOrder])
  }

  function Run(steps: seq<Step>): State {
    if steps == [] then State(0, [], []) else Stepped(steps[|steps| - 1], Run(steps[..|steps| - 1]))
  }

  /** The step drops a live guard that is not the newest. */
  predicate OutOfOrder(step: Step, s: State) {
    step.Drop? && step.index + 1 < |s.live|
  }

  /** Every guard the run drops is the newest live one at that time. */
  predicate NewestFirst(steps: seq<Step>) {
    steps != [] ==>
      NewestFirst(steps[..|steps| - 1]) && !OutOfOrder(steps[|steps| - 1], Run(steps[..|steps| - 1]))
  }

  /** In every run, panics or not, there are as many live guards as layers, so no pop finds an empty stack. */
  lemma {:induction false} AsManyGuardsAsLayers(steps: seq<Step>)
    ensures |Run(steps).live| == Run(steps).depth
    ensures PopFromEmptyStack !in Run(steps).panics
  {
    if steps != [] {
      AsManyGuardsAsLayers(steps[..|steps| - 1]);
    }
  }

  /** The guards have the depths from 1 up. */
  predicate Depths(live: seq<nat>) {
    forall i :: 0 <= i < |live| ==> live[i] == i + 1
  }

  lemma InOrderKeepsDepths(step: Step, s: State)
    requires Depths(s.live) && |s.live| == s.depth && !OutOfOrder(step, s)
    ensures Depths(Stepped(step, s).live)
  {
    if step.Drop? && step.index < |s.live| {
      assert Stepped(step, s).live == s.live[..step.index];
    }
  }

  /** Until a guard is dropped out of order, the live guards are those of depth 1 up to the stack's depth. */
  lemma {:induction false} GuardsAreTheDepths(steps: seq<Step>)
    requires NewestFirst(steps)
    ensures |Run(steps).live| == Run(steps).depth && Depths(Run(steps).live)
  {
    if steps != [] {
      hide Depths, Stepped;
      GuardsAreTheDepths(steps[..|steps| - 1]);
      InOrderKeepsDepths(steps[|steps| - 1], Run(steps[..|steps| - 1]));
    }
    AsManyGuardsAsLayers(steps);
    assert steps == [] ==> Depths(Run(steps).live);
  }

  /** A run is free of panics exactly when every guard it drops is the newest live one. */
  lemma {:induction false} NoPanicIffNewestFirst(steps: seq<Step>)
    ensures Run(steps).panics == [] <==> NewestFirst(steps)
  {
    if steps != [] {
      var init := steps[..|steps| - 1];
      NoPanicIffNewestFirst(init);
      AsManyGuardsAsLayers(init);
      if NewestFirst(init) {
        GuardsAreTheDepths(init);
      }
    }
  }

  /** After one drop out of order even the newest guard can panic. */
  lemma NewestCanPanicLater()
    ensures var before := Run([Push, Push, Drop(0)]);
            before.live == [2] && before.depth == 1 && |Stepped(Drop(0), before).panics| == 2
  {
    assert [Push, Push, Drop(0)][..2] == [Push, Push] && [Push, Push][..1] == [Push] && [Push][..0] == [];
  }
}
