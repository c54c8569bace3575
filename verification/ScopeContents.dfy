/** What a scope holds after any changes: for every setting, key and list, what was written last shows. */
module ScopeContents {
  import opened Wrappers
  import B = Breadcrumbs
  import opened Scopes

  function After(calls: seq<Call>, s: ScopeOf<Data>, shared: Shared): ScopeOf<Data> {
    CallAll(calls, s, shared).0
  }

  predicate IsTable(f: Section) {
    f == Extra || f == Tags || f == Contexts
  }

  /** The changes that a scope has methods for. */
  predicate Offered(call: Call) {
    call.EditSection? ==>
      if IsTable(call.section) then call.edit.Insert? || call.edit.Remove?
      else if call.section == Processors then call.edit.Push?
      else call.section == Attachments && (call.edit.Push? || call.edit == Replace([]))
  }

  /** Tables hold keys and lists hold items. */
  ghost predicate Typed(s: ScopeOf<Data>) {
    forall f :: s.sections.Get(f).Table? <==> IsTable(f)
  }

  lemma {:induction false} CallsJoined(first: seq<Call>, second: seq<Call>, s: ScopeOf<Data>, shared: Shared)
    ensures var (t, shared') := CallAll(first, s, shared); CallAll(first + second, s, shared) == CallAll(second, t, shared')
    decreases |second|
  {
    if second == [] {
      assert first + second == first;
    } else {
      var init := second[..|second| - 1];
      assert (first + second)[..|first + second| - 1] == first + init;
      CallsJoined(first, init, s, shared);
    }
  }

  lemma {:induction false} CallsKeepTypes(calls: seq<Call>, s: ScopeOf<Data>, shared: Shared)
    requires Typed(s) && forall i :: 0 <= i < |calls| ==> Offered(calls[i])
    ensures Typed(After(calls, s, shared))
  {
    if calls != [] {
      var init := calls[..|calls| - 1];
      CallsKeepTypes(init, s, shared);
      CallKeepsTypes(calls[|calls| - 1], After(init, s, shared), CallAll(init, s, shared).1);
    }
  }

  lemma CallKeepsTypes(call: Call, s: ScopeOf<Data>, shared: Shared)
    requires Typed(s) && Offered(call)
    ensures Typed(Called(call, s, shared))
  {
    hide Sections.Put;
    var t := Called(call, s, shared);
    forall f ensures t.sections.Get(f).Table? <==> IsTable(f) {
      assert s.sections.Get(f).Table? <==> IsTable(f);
      assert call.ClearBreadcrumbs? ==> t.sections == s.sections.(trail := List([]));
    }
  }

  // ----- settings

  predicate WritesLevel(call: Call) { call.SetLevel? || call.Clear? }
  predicate WritesFingerprint(call: Call) { call.SetFingerprint? || call.Clear? }
  predicate WritesTransaction(call: Call) { call.SetTransaction? || call.Clear? }
  predicate WritesUser(call: Call) { call.SetUser? || call.Clear? }
  predicate WritesSpan(call: Call) { call.SetSpan? || call.Clear? }

  /** A setting that no change writes stays. */
  lemma {:induction false} SettingsStay(calls: seq<Call>, s: ScopeOf<Data>, shared: Shared)
    ensures var p := After(calls, s, shared).plain;
            && ((forall i :: 0 <= i < |calls| ==> !WritesLevel(calls[i])) ==> p.level == s.plain.level)
            && ((forall i :: 0 <= i < |calls| ==> !WritesFingerprint(calls[i])) ==> p.fingerprint == s.plain.fingerprint)
            && ((forall i :: 0 <= i < |calls| ==> !WritesTransaction(calls[i])) ==> p.transaction == s.plain.transaction)
            && ((forall i :: 0 <= i < |calls| ==> !WritesUser(calls[i])) ==> p.user == s.plain.user)
            && ((forall i :: 0 <= i < |calls| ==> !WritesSpan(calls[i])) ==> p.span == s.plain.span)
  {
    if calls != [] {
      SettingsStay(calls[..|calls| - 1], s, shared);
    }
  }

  /** Every setting is what the last change that writes it makes it; clearing a scope unsets it. */
  lemma LastSettingWins(before: seq<Call>, call: Call, after: seq<Call>, s: ScopeOf<Data>, shared: Shared)
    ensures var p := After(before + [call] + after, s, shared).plain;
            && (WritesLevel(call) && (forall i :: 0 <= i < |after| ==> !WritesLevel(after[i])) ==>
                  p.level == if call.Clear? then None else call.level)
            && (WritesFingerprint(call) && (forall i :: 0 <= i < |after| ==> !WritesFingerprint(after[i])) ==>
                  p.fingerprint == if call.Clear? then None else call.fingerprint)
            && (WritesTransaction(call) && (forall i :: 0 <= i < |after| ==> !WritesTransaction(after[i])) ==>
                  p.transaction == if call.Clear? then None else call.transaction)
            && (WritesUser(call) && (forall i :: 0 <= i < |after| ==> !WritesUser(after[i])) ==>
                  p.user == if call.Clear? then None else call.user)
            && (WritesSpan(call) && (forall i :: 0 <= i < |after| ==> !WritesSpan(after[i])) ==>
                  p.span == if call.Clear? then None else call.span)
  {
    var (t, shared') := CallAll(before, s, shared);
    CallsJoined(before + [call], after, s, shared);
    assert (before + [call])[..|before|] == before;
    SettingsStay(after, Called(call, t, shared'), CalledShared(call, t.plain, shared'));
  }

  // ----- keys

  predicate WritesKey(call: Call, f: Section, key: Id) {
    || call.Clear?
    || (call.EditSection? && call.section == f
        && (call.edit == Remove(key) || (call.edit.Insert? && call.edit.key == key)))
  }

  /** What a table reads under a key. */
  function Under(s: ScopeOf<Data>, f: Section, key: Id): Option<Id> {
    var d := s.sections.Get(f);
    if d.Table? && key in d.entries then Some(d.entries[key]) else None
  }

  lemma OtherKeysStay(call: Call, s: ScopeOf<Data>, shared: Shared, f: Section, key: Id)
    requires Typed(s) && Offered(call) && IsTable(f) && !WritesKey(call, f, key)
    ensures Under(Called(call, s, shared), f, key) == Under(s, f, key)
  {
    hide Sections.Put;
    assert s.sections.Get(f).Table?;
    var t := Called(call, s, shared);
    if call.EditSection? && call.section == f {
      assert t.sections.Get(f) == Edited(call.edit, s.sections.Get(f));
    } else {
      assert t.sections.Get(f) == s.sections.Get(f);
    }
  }

  lemma {:induction false} KeysStay(calls: seq<Call>, s: ScopeOf<Data>, shared: Shared, f: Section, key: Id)
    requires Typed(s) && IsTable(f)
    requires forall i :: 0 <= i < |calls| ==> Offered(calls[i]) && !WritesKey(calls[i], f, key)
    ensures Under(After(calls, s, shared), f, key) == Under(s, f, key)
  {
    if calls != [] {
      var init := calls[..|calls| - 1];
      KeysStay(init, s, shared, f, key);
      CallsKeepTypes(init, s, shared);
      OtherKeysStay(calls[|calls| - 1], After(init, s, shared), CallAll(init, s, shared).1, f, key);
    }
  }

  /** Under every key of a table is what the last change that writes the key puts there, or nothing. */
  lemma LastKeyWins(before: seq<Call>, call: Call, after: seq<Call>, s: ScopeOf<Data>, shared: Shared, f: Section, key: Id)
    requires Typed(s) && IsTable(f) && Offered(call) && WritesKey(call, f, key)
    requires forall i :: 0 <= i < |before| ==> Offered(before[i])
    requires forall i :: 0 <= i < |after| ==> Offered(after[i]) && !WritesKey(after[i], f, key)
    ensures Under(After(before + [call] + after, s, shared), f, key)
            == if call.EditSection? && call.edit.Insert? then Some(call.edit.value) else None
  {
    var (t, shared') := CallAll(before, s, shared);
    CallsKeepTypes(before, s, shared);
    CallKeepsTypes(call, t, shared');
    CallsJoined(before + [call], after, s, shared);
    assert (before + [call])[..|before|] == before;
    KeysStay(after, Called(call, t, shared'), CalledShared(call, t.plain, shared'), f, key);
    KeyWritten(call, t, shared', f, key);
  }

  lemma KeyWritten(call: Call, s: ScopeOf<Data>, shared: Shared, f: Section, key: Id)
    requires Typed(s) && IsTable(f) && Offered(call) && WritesKey(call, f, key)
    ensures Under(Called(call, s, shared), f, key)
            == if call.EditSection? && call.edit.Insert? then Some(call.edit.value) else None
  {
    hide Sections.Put;
    assert s.sections.Get(f).Table?;
  }

  // ----- lists

  predicate Empties(call: Call, f: Section) {
    || call.Clear?
    || (f == Trail && call.ClearBreadcrumbs?)
    || (f == Attachments && call == EditSection(Attachments, Replace([])))
  }

  function ItemsOf(s: ScopeOf<Data>, f: Section): seq<Id> {
    var d := s.sections.Get(f);
    if d.List? then d.items else []
  }

  /** What some changes add to a list. */
  function Added(calls: seq<Call>, f: Section): seq<Id> {
    if calls == [] then [] else
    var call := calls[|calls| - 1];
    Added(calls[..|calls| - 1], f)
    + if call.EditSection? && call.section == f && call.edit.Push? then [call.edit.item] else []
  }

  lemma OneCallOnAList(call: Call, s: ScopeOf<Data>, shared: Shared, f: Section)
    requires Typed(s) && Offered(call) && !IsTable(f)
    ensures ItemsOf(Called(call, s, shared), f)
            == if Empties(call, f) then []
               else if call.EditSection? && call.section == f then ItemsOf(s, f) + [call.edit.item]
               else ItemsOf(s, f)
  {
    hide Sections.Put;
    assert s.sections.Get(f).List?;
    var t := Called(call, s, shared);
    if call.EditSection? && call.section == f {
      assert t.sections.Get(f) == Edited(call.edit, s.sections.Get(f));
    } else if !call.Clear? && !call.ClearBreadcrumbs? {
      assert t.sections.Get(f) == s.sections.Get(f);
    }
  }

  lemma {:induction false} ListsGrow(calls: seq<Call>, s: ScopeOf<Data>, shared: Shared, f: Section)
    requires Typed(s) && !IsTable(f)
    requires forall i :: 0 <= i < |calls| ==> Offered(calls[i]) && !Empties(calls[i], f)
    ensures ItemsOf(After(calls, s, shared), f) == ItemsOf(s, f) + Added(calls, f)
  {
    if calls == [] {
      assert ItemsOf(s, f) + [] == ItemsOf(s, f);
    } else {
      var init, call := calls[..|calls| - 1], calls[|calls| - 1];
      ListsGrow(init, s, shared, f);
      CallsKeepTypes(init, s, shared);
      OneCallOnAList(call, After(init, s, shared), CallAll(init, s, shared).1, f);
      hide ItemsOf, Called, CalledShared;
      var own := if call.EditSection? && call.section == f then [call.edit.item] else [];
      assert ItemsOf(s, f) + Added(init, f) + own == ItemsOf(s, f) + (Added(init, f) + own);
    }
  }

  /** Breadcrumbs, processors and attachments are those added, in order, since they were last cleared. */
  lemma ListsSinceCleared(before: seq<Call>, clear: Call, after: seq<Call>, s: ScopeOf<Data>, shared: Shared, f: Section)
    requires Typed(s) && !IsTable(f) && Offered(clear) && Empties(clear, f)
    requires forall i :: 0 <= i < |before| ==> Offered(before[i])
    requires forall i :: 0 <= i < |after| ==> Offered(after[i]) && !Empties(after[i], f)
    ensures ItemsOf(After(before + [clear] + after, s, shared), f) == Added(after, f)
  {
    var (t, shared') := CallAll(before, s, shared);
    CallsKeepTypes(before, s, shared);
    CallKeepsTypes(clear, t, shared');
    CallsJoined(before + [clear], after, s, shared);
    assert (before + [clear])[..|before|] == before;
    OneCallOnAList(clear, t, shared', f);
    hide ItemsOf, Typed, Offered, Empties, Added, Called, CalledShared;
    ListsGrow(after, Called(clear, t, shared'), CalledShared(clear, t.plain, shared'), f);
    assert [] + Added(after, f) == Added(after, f);
  }

  // ----- what a hub's operations show

  /** Configuring a hub's scope shows in its top layer and leaves its client and its saved layers. */
  lemma ConfiguredShows(w: World, h: Id, calls: seq<Call>)
    requires h in w.hubs
    ensures var after := Step(Op.ConfigureScope(h, calls), w);
            && h in after.hubs && after.hubs[h].top.scope == After(calls, w.hubs[h].top.scope, w.shared)
            && after.hubs[h].top.client == w.hubs[h].top.client && after.hubs[h].layers == w.hubs[h].layers
  {
    hide CallAll;
  }

  /** A pushed layer, a new hub and a call in flight begin with exactly what the top layer holds. */
  lemma TopIsInherited(w: World, h: Id, other: Id)
    requires h in w.hubs
    ensures var after := Step(PushScope(h), w);
            && h in after.hubs && after.hubs[h].top == w.hubs[h].top
            && after.hubs[h].layers == w.hubs[h].layers + [w.hubs[h].top]
    ensures var after := Step(NewFromTop(h, other), w);
            other in after.hubs && after.hubs[other].top == w.hubs[h].top && after.hubs[other].layers == []
    ensures var after := Step(Hold(h, other), w);
            other in after.held && after.held[other] == w.hubs[h].top
  {}

  /** With a client, the trail is then the last breadcrumbs of those it had and those let through; without, it stays. */
  lemma BreadcrumbsShow(w: World, h: Id, offered: seq<Id>)
    requires h in w.hubs && Typed(w.hubs[h].top.scope) && offered != []
    ensures var before, after := w.hubs[h].top, Step(Op.AddBreadcrumb(h, offered), w).hubs[h].top;
            && after.client == before.client && after.scope.plain == before.scope.plain
            && (before.client.None? ==> after == before)
            && (before.client.Some? ==>
                  var options := before.client.value.options;
                  ItemsOf(after.scope, Trail)
                  == B.Last(options.maxBreadcrumbs, ItemsOf(before.scope, Trail) + B.Accepted(options, offered)))
            && forall f :: f != Trail ==> after.scope.sections.Get(f) == before.scope.sections.Get(f)
  {
    StepOnTop(w, Op.AddBreadcrumb(h, offered));
    hide Step, B.Last, B.Accepted, Typed;
    TrailIsAList(w.hubs[h].top.scope);
    if w.hubs[h].top.client.Some? {
      TrailShows(w.hubs[h].top.scope, w.hubs[h].top.client.value.options, offered);
      hide Trailed;
    }
  }

  lemma TrailIsAList(s: ScopeOf<Data>)
    requires Typed(s)
    ensures s.sections.trail.List?
  {
    assert s.sections.Get(Trail).List?;
  }

  lemma TrailShows(s: ScopeOf<Data>, options: B.Options<Id>, offered: seq<Id>)
    requires s.sections.trail.List? && offered != []
    ensures var t := Trailed(s, options, offered);
            && t.plain == s.plain
            && ItemsOf(t, Trail) == B.Last(options.maxBreadcrumbs, ItemsOf(s, Trail) + B.Accepted(options, offered))
            && forall f :: f != Trail ==> t.sections.Get(f) == s.sections.Get(f)
  {
    hide B.Last, B.Accepted;
  }

  /** A started session is the one in the cell of the top scope, and that cell is new. */
  lemma SessionShows(w: World, h: Id, session: Id)
    requires h in w.hubs
    ensures var top, after := w.hubs[h].top, Step(Op.StartSession(h, session), w);
            if top.client.None? || !top.client.value.release then after == w
            else
              var cell := after.hubs[h].top.scope.session;
              && |w.shared.sessions| <= cell < |after.shared.sessions| && after.shared.sessions[cell] == Some(session)
              && w.shared.sessions <= after.shared.sessions
              && after.hubs[h].top == top.(scope := top.scope.(session := cell))
  {}

  /** Ending it empties the cell, for every scope that shares it, and no other. */
  lemma SessionEnds(w: World, h: Id)
    requires h in w.hubs && w.hubs[h].top.scope.session < |w.shared.sessions|
    ensures var cell, after := w.hubs[h].top.scope.session, Step(Op.EndSession(h), w);
            && after.hubs == w.hubs && |after.shared.sessions| == |w.shared.sessions|
            && after.shared.transactions == w.shared.transactions
            && forall i :: 0 <= i < |w.shared.sessions| ==>
                 after.shared.sessions[i] == if i == cell then None else w.shared.sessions[i]
  {}

  /** Naming the scope's transaction names the open one that its span belongs to, and no other. */
  lemma OpenTransactionRenamed(w: World, h: Id, name: Id)
    requires h in w.hubs
    ensures var span, after := w.hubs[h].top.scope.plain.span, Step(Op.ConfigureScope(h, [SetTransaction(Some(name))]), w);
            && after.hubs[h].top.scope.plain.transaction == Some(name)
            && after.shared.transactions.Keys == w.shared.transactions.Keys
            && (forall a :: a in w.shared.transactions ==>
                  after.shared.transactions[a] == if span == Some(a) then name else w.shared.transactions[a])
  {
    var s, shared := w.hubs[h].top.scope, w.shared;
    var call := SetTransaction(Some(name));
    assert [call][..0] == [];
    assert CallAll([call], s, shared) == (Called(call, s, shared), CalledShared(call, s.plain, shared));
  }
}
