/** One release-health session, from its start to its drop. */
module Sessions {
  import opened Wrappers
  import opened SessionFlushing

  datatype Level = Debug | Info | Warning | Error | Fatal

  /** An exception; a mechanism may say whether it was handled. */
  datatype Exception = Exception(mechanism: Option<Mechanism>)

  datatype Mechanism = Mechanism(handled: Option<bool>)

  datatype Event = Event(level: Level, exceptions: seq<Exception>)

  predicate Unhandled(e: Exception) {
    e.mechanism.Some? && e.mechanism.value.handled == Some(false)
  }

  /** An event counts as an error by its level or because it carries an exception. */
  predicate IsError(event: Event) {
    event.level.Error? || event.level.Fatal? || event.exceptions != []
  }

  predicate IsCrash(event: Event) {
    exists i :: 0 <= i < |event.exceptions| && Unhandled(event.exceptions[i])
  }

  datatype SessionState = SessionState(update: Update, dirty: bool)

  function Updated(c: SessionState, event: Event): SessionState {
    if c.update.status != Status.Ok then c else
    var status := if IsCrash(event) then Status.Crashed else Status.Ok;
    if IsError(event)
    then SessionState(c.update.(status := status, errors := c.update.errors + 1), true)
    else c
  }

  function Closed(c: SessionState, status: Status): SessionState {
    if c.update.status != Status.Ok then c
    else SessionState(c.update.(status := if status == Status.Ok then Status.Exited else status), true)
  }

  class Session {
    var update: Update
    var dirty: bool

    function Value(): SessionState
      reads this
    {
      SessionState(update, dirty)
    }

    constructor (sessionId: nat, distinctId: Option<string>, started: nat, attributes: Attributes)
      ensures Value() == Started(sessionId, distinctId, started, attributes)
    {
      update := Update(sessionId, distinctId, started, true, Status.Ok, 0, attributes);
      dirty := true;
    }

    method UpdateFromEvent(event: Event)
      modifies this
      ensures Value() == Updated(old(Value()), event)
    {
      if update.status != Status.Ok {
        return;
      }
      var hasError := event.level.Error? || event.level.Fatal?;
      var isCrash := false;
      var i := 0;
      while i < |event.exceptions|
        invariant 0 <= i <= |event.exceptions|
        invariant forall k :: 0 <= k < i ==> !Unhandled(event.exceptions[k])
        invariant hasError == (event.level.Error? || event.level.Fatal? || i > 0)
        invariant !isCrash
      {
        hasError := true;
        match event.exceptions[i].mechanism {
          case Some(mechanism) =>
            if mechanism.handled == Some(false) {
              assert Unhandled(event.exceptions[i]);
              isCrash := true;
              break;
            }
          case None =>
        }
        i := i + 1;
      }
      if isCrash {
        update := update.(status := Status.Crashed);
      }
      if hasError {
        update := update.(errors := update.errors + 1);
        dirty := true;
      }
    }

    method Close(status: Status)
      modifies this
      ensures Value() == Closed(old(Value()), status)
    {
      if update.status == Status.Ok {
        var status' := if status == Status.Ok then Status.Exited else status;
        update := update.(status := status');
        dirty := true;
      }
    }

    /** The update to send, if anything changed since the last one. */
    method CreateEnvelopeItem() returns (item: Option<Update>)
      modifies this
      ensures (item, Value()) == Emitted(old(Value()))
    {
      if dirty {
        item := Some(update);
        update := update.(init := false);
        dirty := false;
        return;
      }
      item := None;
    }

    /** What dropping the session hands to the client's queue. */
    method Drop() returns (item: Option<Update>)
      modifies this
      ensures item == DropEmits(old(Value()))
    {
      Close(Status.Exited);
      item := if dirty then Some(update) else None;
    }
  }

  function Started(sessionId: nat, distinctId: Option<string>, started: nat, attributes: Attributes): SessionState {
    SessionState(Update(sessionId, distinctId, started, true, Status.Ok, 0, attributes), true)
  }

  function Emitted(c: SessionState): (Option<Update>, SessionState) {
    if c.dirty then (Some(c.update), SessionState(c.update.(init := false), false)) else (None, c)
  }

  function DropEmits(c: SessionState): Option<Update> {
    var closed := Closed(c, Status.Exited);
    if closed.dirty then Some(closed.update) else None
  }

  // ----- runs

  datatype Call = UpdateFrom(event: Event) | Close(status: Status) | Emit

  function After(c: SessionState, calls: seq<Call>): SessionState
    decreases |calls|
  {
    if calls == [] then c else
    var n := |calls| - 1;
    var before := After(c, calls[..n]);
    match calls[n]
    case UpdateFrom(event) => Updated(before, event)
    case Close(status) => Closed(before, status)
    case Emit => Emitted(before).1
  }

  function OptionToSeq(item: Option<Update>): seq<Update> {
    if item.Some? then [item.value] else []
  }

  /** The updates sent while the session lives. */
  function EmittedBy(c: SessionState, calls: seq<Call>): seq<Update>
    decreases |calls|
  {
    if calls == [] then [] else
    var n := |calls| - 1;
    EmittedBy(c, calls[..n]) + if calls[n].Emit? then OptionToSeq(Emitted(After(c, calls[..n])).0) else []
  }

  /** All updates of a session's life, the one that its drop enqueues included. */
  function Life(c: SessionState, calls: seq<Call>): seq<Update> {
    EmittedBy(c, calls) + OptionToSeq(DropEmits(After(c, calls)))
  }

  /** Levels by how bad they are. */
  function Severity(level: Level): nat {
    match level
    case Debug => 0
    case Info => 1
    case Warning => 2
    case Error => 3
    case Fatal => 4
  }

  /** An event is bad enough from level error on, or when it reports any exception. */
  predicate BadEvent(event: Event) {
    Severity(event.level) > Severity(Warning) || |event.exceptions| > 0
  }

  /** One of the exceptions says that nobody handled it. */
  predicate ReportsCrash(event: Event) {
    Exception(Some(Mechanism(Some(false)))) in event.exceptions
  }

  lemma EventClasses(event: Event)
    ensures IsError(event) <==> BadEvent(event)
    ensures IsCrash(event) <==> ReportsCrash(event)
    ensures ReportsCrash(event) ==> BadEvent(event)
  {
    if IsCrash(event) {
      var i :| 0 <= i < |event.exceptions| && Unhandled(event.exceptions[i]);
      assert event.exceptions[i] == Exception(Some(Mechanism(Some(false))));
    }
  }

  /** How many error events came in while no call had ended the session yet, the crashing one included. */
  function ErrorsBeforeEnd(calls: seq<Call>): nat
    decreases |calls|
  {
    if calls == [] then 0 else
    var n := |calls| - 1;
    ErrorsBeforeEnd(calls[..n])
    + if EndedBy(calls[..n]).None? && calls[n].UpdateFrom? && BadEvent(calls[n].event) then 1 else 0
  }

  /** The status with which the first call that ends the session ends it. */
  function EndedBy(calls: seq<Call>): Option<Status>
    decreases |calls|
  {
    if calls == [] then None else
    var n := |calls| - 1;
    var before := EndedBy(calls[..n]);
    if before.Some? then before else
    match calls[n]
    case UpdateFrom(event) => if ReportsCrash(event) then Some(Status.Crashed) else None
    case Close(status) => Some(if status == Status.Ok then Status.Exited else status)
    case Emit => None
  }

  /** The update is about the session that was started so. */
  predicate IsAbout(update: Update, sessionId: nat, distinctId: Option<string>, started: nat, attributes: Attributes) {
    && update.sessionId == sessionId && update.distinctId == distinctId
    && update.started == started && update.attributes == attributes
  }

  /** Calls never change what session an update is about. */
  lemma {:induction false} CallsKeepSession(
      sessionId: nat, distinctId: Option<string>, started: nat, attributes: Attributes, calls: seq<Call>)
    ensures var c := Started(sessionId, distinctId, started, attributes);
            && IsAbout(After(c, calls).update, sessionId, distinctId, started, attributes)
            && forall u :: u in Life(c, calls) ==> IsAbout(u, sessionId, distinctId, started, attributes)
  {
    var c := Started(sessionId, distinctId, started, attributes);
    if calls != [] {
      CallsKeepSession(sessionId, distinctId, started, attributes, calls[..|calls| - 1]);
    }
  }

  /** What the emitted updates and the session's state say after some calls. */
  ghost predicate InLife(c: SessionState, emitted: seq<Update>, errors: nat, ended: Option<Status>) {
    && c.update.status == ended.GetOr(Status.Ok)
    && ended != Some(Status.Ok)
    && c.update.errors == errors
    && c.update.init == (emitted == [])
    && (emitted == [] ==> c.dirty)
    && (forall i :: 0 <= i < |emitted| ==> emitted[i].init == (i == 0) && emitted[i].errors <= errors)
    && (forall i, k :: 0 <= i < k < |emitted| ==> emitted[i].errors <= emitted[k].errors)
    && (forall i :: 0 <= i < |emitted| - 1 ==> emitted[i].status == Status.Ok)
    && (emitted != [] && c.dirty ==> emitted[|emitted| - 1].status == Status.Ok)
    && (emitted != [] && !c.dirty ==>
          emitted[|emitted| - 1].status == c.update.status && emitted[|emitted| - 1].errors == errors)
  }

  lemma {:induction false} CallsKeepLife(c: SessionState, calls: seq<Call>)
    requires c.update.status == Status.Ok && c.update.init && c.dirty && c.update.errors == 0
    ensures InLife(After(c, calls), EmittedBy(c, calls), ErrorsBeforeEnd(calls), EndedBy(calls))
  {
    if calls != [] {
      var n := |calls| - 1;
      CallsKeepLife(c, calls[..n]);
      if calls[n].UpdateFrom? {
        EventClasses(calls[n].event);
      }
    }
  }

  /** A life: one update at least, only the first initial, only the last final, errors never going down. */
  ghost predicate EndsOnce(life: seq<Update>, errors: nat, last: Status) {
    && life != []
    && (forall i :: 0 <= i < |life| - 1 ==> life[i].status == Status.Ok)
    && life[|life| - 1].status == last != Status.Ok
    && (forall i :: 0 <= i < |life| ==> life[i].init == (i == 0))
    && (forall i, k :: 0 <= i < k < |life| ==> life[i].errors <= life[k].errors)
    && life[|life| - 1].errors == errors
  }

  lemma DropEndsLife(c: SessionState, emitted: seq<Update>, errors: nat, ended: Option<Status>)
    requires InLife(c, emitted, errors, ended)
    ensures EndsOnce(emitted + OptionToSeq(DropEmits(c)), errors, ended.GetOr(Status.Exited))
  {
    var last := DropEmits(c);
    if last == None {
      assert emitted + [] == emitted;
    }
  }

  ghost predicate InOneClass(update: Update) {
    (exists k :: IsOf(update, k)) && forall k, l :: IsOf(update, k) && IsOf(update, l) ==> k == l
  }

  /** A session that ended is of one class, and one that is open of none. */
  lemma FinalIsOfOneClass(update: Update)
    ensures update.status != Status.Ok <==> InOneClass(update)
  {
    if update.status == Exited && update.errors > 0 {
      assert IsOf(update, WithErrors);
    } else if update.status == Exited {
      assert IsOf(update, Clean);
    } else if update.status == Crashed {
      assert IsOf(update, CrashedEnd);
    } else if update.status == Abnormal {
      assert IsOf(update, AbnormalEnd);
    }
  }

  /**
   Every life of a session sends at least one update, all about that session. The last one, and no other,
   has a final status: the one that ended the session first, or `Exited`. Only the first is initial, error
   counts never go down, and the last count is the number of error events that came in before the session
   ended. The last update is of one of the classes a report counts: the class for open sessions is never met.
   */
  lemma LifeEndsOnce(
      sessionId: nat, distinctId: Option<string>, started: nat, attributes: Attributes, calls: seq<Call>)
    ensures var life := Life(Started(sessionId, distinctId, started, attributes), calls);
            && EndsOnce(life, ErrorsBeforeEnd(calls), EndedBy(calls).GetOr(Status.Exited))
            && (forall u :: u in life ==> IsAbout(u, sessionId, distinctId, started, attributes))
            && InOneClass(life[|life| - 1])
  {
    var c := Started(sessionId, distinctId, started, attributes);
    CallsKeepLife(c, calls);
    CallsKeepSession(sessionId, distinctId, started, attributes, calls);
    DropEndsLife(After(c, calls), EmittedBy(c, calls), ErrorsBeforeEnd(calls), EndedBy(calls));
    FinalIsOfOneClass(Life(c, calls)[|Life(c, calls)| - 1]);
  }
}
