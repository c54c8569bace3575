/** Entered spans switch the hub of their thread; the guards that switch it back are kept per span. */
module SpanGuards {
  import opened Wrappers

  type Hub = nat    // numbered in order of creation
  type SpanId = nat

  /** Remembers the hub to switch back to, unless the switch was to the same hub. */
  datatype SwitchGuard = SwitchGuard(inner: Option<Hub>)

  type Guards = map<SpanId, seq<SwitchGuard>>

  function StackOf(guards: Guards, id: SpanId): seq<SwitchGuard> {
    if id in guards then guards[id] else []
  }

  class SpanGuardStack {
    var guards: Guards

    constructor ()
      ensures guards == map[]
    {
      guards := map[];
    }

    method Push(id: SpanId, guard: SwitchGuard)
      modifies this
      ensures guards == old(guards)[id := StackOf(old(guards), id) + [guard]]
    {
      guards := guards[id := StackOf(guards, id) + [guard]];
    }

    /** Pops the newest guard of the span; an emptied stack does not stay. */
    method Pop(id: SpanId) returns (guard: Option<SwitchGuard>)
      modifies this
      ensures StackOf(old(guards), id) == [] ==> guard == None && StackOf(guards, id) == []
      ensures StackOf(old(guards), id) != [] ==>
                guard.Some? && StackOf(guards, id) + [guard.value] == StackOf(old(guards), id)
      ensures id in guards ==> guards[id] != []
      ensures guards - {id} == old(guards) - {id}
    {
      if id !in guards {
        return None;
      }
      var stack := guards[id];
      guard := if stack == [] then None else Some(stack[|stack| - 1]);
      var rest := if stack == [] then [] else stack[..|stack| - 1];
      guards := if rest == [] then guards - {id} else guards[id := rest];
    }
  }

  /**
   A thread: its hub, the guards of entered spans and of `Hub::run` calls, each span's hub of origin, and
   which hub each fork was made from.
   */
  datatype State = State(hub: Hub, guards: Guards, runs: seq<SwitchGuard>, spans: map<SpanId, Hub>,
                         forks: map<Hub, Hub>, next: Hub)

  datatype Event =
    | NewSpan(id: SpanId)
    | Close(id: SpanId)
    | Enter(id: SpanId)
    | Exit(id: SpanId)
    | RunBegins(hub: Hub)
    | RunEnds

  function Switched(s: State, hub: Hub): (State, SwitchGuard) {
    (s.(hub := hub), SwitchGuard(if hub == s.hub then None else Some(s.hub)))
  }

  function Restored(s: State, guard: SwitchGuard): State {
    if guard.inner.Some? then s.(hub := guard.inner.value) else s
  }

  function WithStack(guards: Guards, id: SpanId, stack: seq<SwitchGuard>): Guards {
    if stack == [] then guards - {id} else guards[id := stack]
  }

  /** What each callback of the layer, and each end of a `Hub::run`, does to the thread. */
  function Stepped(e: Event, s: State): State {
    match e
    case NewSpan(id) => s.(spans := s.spans[id := s.hub])
    case Close(id) => s.(spans := s.spans - {id})
    case Enter(id) =>
      if id !in s.spans then s else
      var forked := s.(forks := s.forks[s.next := s.spans[id]], next := s.next + 1);
      var (s', guard) := Switched(forked, s.next);
      s'.(guards := s.guards[id := StackOf(s.guards, id) + [guard]])
    case Exit(id) =>
      var stack := StackOf(s.guards, id);
      if stack == [] then s.(guards := s.guards - {id})
      else Restored(s, stack[|stack| - 1]).(guards := WithStack(s.guards, id, stack[..|stack| - 1]))
    case RunBegins(hub) =>
      var (s', guard) := Switched(s.(next := if hub < s.next then s.next else hub + 1), hub);
      s'.(runs := s.runs + [guard])
    case RunEnds =>
      if s.runs == [] then s
      else Restored(s, s.runs[|s.runs| - 1]).(runs := s.runs[..|s.runs| - 1])
  }

  class Thread {
    var hub: Hub
    const guards: SpanGuardStack
    var runs: seq<SwitchGuard>
    var spans: map<SpanId, Hub>
    var forks: map<Hub, Hub>
    var next: Hub

    constructor (hub: Hub)
      ensures Value() == State(hub, map[], [], map[], map[], hub + 1)
    {
      this.hub, runs, spans, forks, next := hub, [], map[], map[], hub + 1;
      guards := new SpanGuardStack();
    }

    function Value(): State
      reads this, guards
    {
      State(hub, guards.guards, runs, spans, forks, next)
    }

    /** `SwitchGuard::new`. */
    method Switch(hub: Hub) returns (guard: SwitchGuard)
      modifies this`hub
      ensures (Value(), guard) == Switched(old(Value()), hub)
    {
      if this.hub == hub {
        return SwitchGuard(None);
      }
      guard := SwitchGuard(Some(this.hub));
      this.hub := hub;
    }

    /** Dropping a guard. */
    method SwitchBack(guard: SwitchGuard)
      modifies this`hub
      ensures Value() == Restored(old(Value()), guard)
    {
      if guard.inner.Some? {
        hub := guard.inner.value;
      }
    }

    method OnNewSpan(id: SpanId)
      modifies this`spans
      ensures Value() == Stepped(NewSpan(id), old(Value()))
    {
      spans := spans[id := hub];
    }

    method OnClose(id: SpanId)
      modifies this`spans
      ensures Value() == Stepped(Close(id), old(Value()))
    {
      spans := spans - {id};
    }

    /** A new hub that begins with what the top layer of the other holds. */
    method NewFromTop(other: Hub) returns (fork: Hub)
      modifies this`forks, this`next
      ensures fork == old(next) && next == old(next) + 1 && forks == old(forks)[fork := other]
    {
      fork := next;
      next := next + 1;
      forks := forks[fork := other];
    }

    /** Forks the hub of the span's origin and switches to the fork. */
    method OnEnter(id: SpanId)
      modifies this, guards
      ensures Value() == Stepped(Enter(id), old(Value()))
    {
      if id in spans {
        var fork := NewFromTop(spans[id]);
        var guard := Switch(fork);
        guards.Push(id, guard);
      }
    }

    method OnExit(id: SpanId)
      modifies this, guards
      ensures Value() == Stepped(Exit(id), old(Value()))
    {
      ghost var before := guards.guards;
      var guard := guards.Pop(id);
      ghost var stack := StackOf(before, id);
      assert guards.guards == WithStack(before, id, if stack == [] then [] else stack[..|stack| - 1]) by {
        assert forall k :: k in guards.guards && k != id ==> k in guards.guards - {id};
        assert forall k :: k in before && k != id ==> k in before - {id};
      }
      if guard.Some? {
        SwitchBack(guard.value);
      }
    }

    /** `Hub::run`, as the two ends of the call. */
    method RunBegins(hub: Hub)
      modifies this
      ensures Value() == Stepped(Event.RunBegins(hub), old(Value()))
    {
      if hub >= next {
        next := hub + 1;
      }
      var guard := Switch(hub);
      runs := runs + [guard];
    }

    method RunEnds()
      modifies this
      ensures Value() == Stepped(Event.RunEnds, old(Value()))
    {
      if runs != [] {
        SwitchBack(runs[|runs| - 1]);
        runs := runs[..|runs| - 1];
      }
    }
  }
}
