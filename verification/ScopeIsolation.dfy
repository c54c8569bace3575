/** What no run of hub operations can change behind a caller's back. */
module ScopeIsolation {
  import opened Wrappers
  import opened Scopes

  function Run(ops: seq<Op>, w: World): World {
    if ops == [] then w else Step(ops[|ops| - 1], Run(ops[..|ops| - 1], w))
  }

  lemma {:induction false} RunLonger(ops: seq<Op>, op: Op, w: World)
    ensures Run(ops + [op], w) == Step(op, Run(ops, w))
  {
    assert (ops + [op])[..|ops|] == ops;
  }

  lemma {:induction false} RunJoined(first: seq<Op>, second: seq<Op>, w: World)
    ensures Run(first + second, w) == Run(second, Run(first, w))
    decreases |second|
  {
    if second == [] {
      assert first + second == first;
    } else {
      var init, last := second[..|second| - 1], second[|second| - 1];
      RunJoined(first, init, w);
      assert first + second == (first + init) + [last];
      RunLonger(first + init, last, w);
    }
  }

  /** Performs one operation on the pointers; an operation on a hub that does not exist is none. */
  method Perform(process: Process, op: Op)
    requires process.Valid() && process.owned == None
    modifies process
    ensures process.Valid() && process.owned == None
    ensures process.View() == Step(op, old(process.View()))
  {
    if op.hub !in process.hubs {
      return;
    }
    match op
    case PushScope(h) => process.PushScope(h);
    case PopScope(h) => var _ := process.PopScope(h);
    case ConfigureScope(h, calls) => process.ConfigureScope(h, calls);
    case AddBreadcrumb(h, offered) => process.AddBreadcrumb(h, offered);
    case StartSession(h, session) => process.StartSession(h, session);
    case EndSession(h) => process.EndSession(h);
    case BindClient(h, client) => process.BindClient(h, client);
    case NewFromTop(h, other) => process.NewFromTop(h, other);
    case Hold(h, reader) => process.Hold(h, reader);
    case Release(h, reader) => process.Release(h, reader);
  }

  /** Copy-on-write pointers behave as values in every run. */
  method PerformAll(process: Process, ops: seq<Op>)
    requires process.Valid() && process.owned == None
    modifies process
    ensures process.Valid() && process.owned == None
    ensures process.View() == Run(ops, old(process.View()))
  {
    hide Step;
    for i := 0 to |ops|
      invariant process.Valid() && process.owned == None
      invariant process.View() == Run(ops[..i], old(process.View()))
    {
      assert ops[..i + 1] == ops[..i] + [ops[i]];
      RunLonger(ops[..i], ops[i], old(process.View()));
      Perform(process, ops[i]);
    }
    assert ops[..|ops|] == ops;
  }

  /** The step does not act on the hub and does not replace it. */
  predicate Elsewhere(op: Op, h: Id) {
    op.hub != h && !(op.NewFromTop? && op.other == h)
  }

  /** Whatever other hubs do, derived from this one or not, this one reads the same. */
  lemma {:induction false} OthersCannotChangeAHub(ops: seq<Op>, w: World, h: Id)
    requires h in w.hubs && forall i :: 0 <= i < |ops| ==> Elsewhere(ops[i], h)
    ensures h in Run(ops, w).hubs && Run(ops, w).hubs[h] == w.hubs[h]
  {
    if ops != [] {
      OthersCannotChangeAHub(ops[..|ops| - 1], w, h);
    }
  }

  /** Nor can anything change the layer that a call in flight reads from. */
  lemma {:induction false} HeldLayersAreFrozen(ops: seq<Op>, w: World, reader: Id)
    requires reader in w.held
    requires forall i :: 0 <= i < |ops| ==> !((ops[i].Hold? || ops[i].Release?) && ops[i].reader == reader)
    ensures reader in Run(ops, w).held && Run(ops, w).held[reader] == w.held[reader]
  {
    if ops != [] {
      HeldLayersAreFrozen(ops[..|ops| - 1], w, reader);
    }
  }

  /** Scopes pushed minus scopes popped. */
  function Level(ops: seq<Op>, h: Id): int {
    if ops == [] then 0 else
    var last := ops[|ops| - 1];
    Level(ops[..|ops| - 1], h)
    + if last == PushScope(h) then 1 else if last == PopScope(h) then -1 else 0
  }

  /** The steps pop no scope of this hub that they did not push, and do not replace the hub. */
  predicate StaysAbove(ops: seq<Op>, h: Id) {
    && (forall i :: 0 <= i <= |ops| ==> Level(ops[..i], h) >= 0)
    && (forall i :: 0 <= i < |ops| ==> !(ops[i].NewFromTop? && ops[i].other == h))
  }

  /** The layers below stay what they were, and one more lies above them for every push not yet undone. */
  lemma {:induction false} SavedLayersStay(ops: seq<Op>, w: World, h: Id)
    requires h in w.hubs && StaysAbove(ops, h)
    ensures h in Run(ops, w).hubs
    ensures w.hubs[h].layers <= Run(ops, w).hubs[h].layers
    ensures |Run(ops, w).hubs[h].layers| == |w.hubs[h].layers| + Level(ops, h)
  {
    if ops != [] {
      var init := ops[..|ops| - 1];
      assert forall i :: 0 <= i <= |init| ==> init[..i] == ops[..i];
      SavedLayersStay(init, w, h);
      assert ops[..|ops|] == ops;
      var before, after := Run(init, w), Run(ops, w);
      if ops[|ops| - 1].hub != h {
        assert after.hubs[h] == before.hubs[h];
      }
    }
  }

  /**
   `with_scope` leaves the hub as it was, top and saved layers, whatever balanced steps its callback takes
   on this hub and whatever steps are taken on others meanwhile.
   */
  lemma {:induction false} WithScopeRestores(ops: seq<Op>, w: World, h: Id)
    requires h in w.hubs && StaysAbove(ops, h) && Level(ops, h) == 0
    ensures var after := Run([PushScope(h)] + ops + [PopScope(h)], w);
            h in after.hubs && after.hubs[h] == w.hubs[h]
  {
    var pushed := Step(PushScope(h), w);
    RunLonger([], PushScope(h), w);
    RunJoined([PushScope(h)], ops, w);
    RunLonger([PushScope(h)] + ops, PopScope(h), w);
    assert [] + [PushScope(h)] == [PushScope(h)];
    SavedLayersStay(ops, pushed, h);
    var inner := Run(ops, pushed).hubs[h];
    assert inner.layers == w.hubs[h].layers + [w.hubs[h].top];
  }

  /** A step ends the session of a cell exactly when it ends the session of a top layer that uses the cell. */
  predicate Ends(op: Op, w: World, cell: Addr) {
    op.EndSession? && op.hub in w.hubs && w.hubs[op.hub].top.scope.session == cell
  }

  lemma {:induction false} CallsKeepCells(calls: seq<Call>, s: ScopeOf<Data>, shared: Shared)
    ensures shared.sessions <= CallAll(calls, s, shared).1.sessions
  {
    if calls != [] {
      CallsKeepCells(calls[..|calls| - 1], s, shared);
    }
  }

  /** Session cells are shared, but nothing else reaches them. */
  lemma {:induction false} OnlySharersEndASession(ops: seq<Op>, w: World, cell: Addr)
    requires cell < |w.shared.sessions|
    requires forall i :: 0 <= i < |ops| ==> !Ends(ops[i], Run(ops[..i], w), cell)
    ensures cell < |Run(ops, w).shared.sessions|
    ensures Run(ops, w).shared.sessions[cell] == w.shared.sessions[cell]
  {
    if ops != [] {
      var init, last := ops[..|ops| - 1], ops[|ops| - 1];
      assert forall i :: 0 <= i <= |init| ==> init[..i] == ops[..i];
      OnlySharersEndASession(init, w, cell);
      assert !Ends(ops[|ops| - 1], Run(ops[..|ops| - 1], w), cell);
      var before := Run(init, w);
      if last.ConfigureScope? && last.hub in before.hubs {
        CallsKeepCells(last.calls, before.hubs[last.hub].top.scope, before.shared);
      }
    }
  }

  lemma RunFour(a: Op, b: Op, c: Op, d: Op, w: World)
    ensures Run([a, b, c, d], w) == Step(d, Step(c, Step(b, Step(a, w))))
  {
    hide Step;
    RunLonger([], a, w);
    RunLonger([a], b, w);
    RunLonger([a, b], c, w);
    RunLonger([a, b, c], d, w);
    assert [] + [a] == [a] && [a] + [b] == [a, b] && [a, b] + [c] == [a, b, c] && [a, b, c] + [d] == [a, b, c, d];
  }

  /** A session started in a pushed scope is not the session of the scope around it. */
  lemma SessionStartedInsideIsItsOwn(w: World, h: Id, session: Id)
    requires h in w.hubs && w.hubs[h].top.client.Some? && w.hubs[h].top.client.value.release
    ensures var after := Run([PushScope(h), StartSession(h, session), EndSession(h), PopScope(h)], w);
            && after.hubs == w.hubs
            && after.shared.sessions == w.shared.sessions + [None]
  {
    RunFour(PushScope(h), StartSession(h, session), EndSession(h), PopScope(h), w);
    hide Run;
    var pushed := Step(PushScope(h), w);
    var started := Step(StartSession(h, session), pushed);
    var ended := Step(EndSession(h), started);
    assert started.shared.sessions == w.shared.sessions + [Some(session)];
    assert ended.shared.sessions == w.shared.sessions + [None];
    assert ended.hubs[h].layers == w.hubs[h].layers + [w.hubs[h].top];
  }

  /** Names a call may write to. */
  predicate Names(call: Call) {
    call.SetTransaction? && call.transaction.Some?
  }

  lemma {:induction false} CallsKeepNames(calls: seq<Call>, s: ScopeOf<Data>, shared: Shared)
    requires forall i :: 0 <= i < |calls| ==> !Names(calls[i])
    ensures CallAll(calls, s, shared).1.transactions == shared.transactions
  {
    if calls != [] {
      CallsKeepNames(calls[..|calls| - 1], s, shared);
    }
  }

  /** Live transactions are renamed by `set_transaction` only. */
  lemma {:induction false} OnlySetTransactionRenames(ops: seq<Op>, w: World)
    requires forall i, j :: 0 <= i < |ops| && ops[i].ConfigureScope? && 0 <= j < |ops[i].calls| ==>
               !Names(ops[i].calls[j])
    ensures Run(ops, w).shared.transactions == w.shared.transactions
  {
    if ops != [] {
      var init, last := ops[..|ops| - 1], ops[|ops| - 1];
      OnlySetTransactionRenames(init, w);
      var before := Run(init, w);
      if last.ConfigureScope? && last.hub in before.hubs {
        CallsKeepNames(last.calls, before.hubs[last.hub].top.scope, before.shared);
      }
    }
  }
}
