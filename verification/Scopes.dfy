/**
 Hubs, their stacks of layers, and the copy-on-write scopes they share.

 `World` is what callers may rely on: every layer holds a scope value of its own. `Process` is what the
 library does: layers point to scopes, scopes point to sections, a clone copies pointers only, and a
 writer copies exactly what somebody else can still see.
 */
module Scopes {
  import opened Wrappers
  import opened Breadcrumbs

  type Id = nat   // a hub, or any content the library only passes on
  type Addr = nat

  datatype Client = Client(options: Options<Id>, release: bool)

  /** A shared part of a scope. */
  datatype Data = List(items: seq<Id>) | Table(entries: map<Id, Id>)

  datatype Section = Trail | Extra | Tags | Contexts | Processors | Attachments

  /** One thing per section. */
  datatype Sections<T> = Sections(trail: T, extra: T, tags: T, contexts: T, processors: T, attachments: T) {
    function Get(f: Section): T {
      match f
      case Trail => trail
      case Extra => extra
      case Tags => tags
      case Contexts => contexts
      case Processors => processors
      case Attachments => attachments
    }

    function Put(f: Section, x: T): (r: Sections<T>)
      ensures forall g :: r.Get(g) == if g == f then x else Get(g)
    {
      match f
      case Trail => this.(trail := x)
      case Extra => this.(extra := x)
      case Tags => this.(tags := x)
      case Contexts => this.(contexts := x)
      case Processors => this.(processors := x)
      case Attachments => this.(attachments := x)
    }
  }

  /** The fields a clone copies outright; `span` names a live transaction or span. */
  datatype Plain = Plain(level: Option<Id>, fingerprint: Option<seq<Id>>, transaction: Option<Id>,
                         user: Option<Id>, span: Option<Addr>, propagation: Id)

  /** A scope whose sections are pointers or values; `session` is the cell it shares with its clones. */
  datatype ScopeOf<T> = Scope(plain: Plain, session: Addr, sections: Sections<T>)

  datatype Layer<S> = Layer(client: Option<Client>, scope: S)

  datatype Stack<S> = Stack(top: Layer<S>, layers: seq<Layer<S>>)

  const DEFAULT_PLAIN := Plain(None, None, None, None, None, 0)
  const EMPTY_SECTIONS := Sections(List([]), Table(map[]), Table(map[]), Table(map[]), List([]), List([]))

  /** A change to one section in place. */
  datatype Edit = Insert(key: Id, value: Id) | Remove(key: Id) | Push(item: Id) | Replace(items: seq<Id>)

  function Edited(edit: Edit, d: Data): Data {
    match edit
    case Insert(k, v) => if d.Table? then Table(d.entries[k := v]) else d
    case Remove(k) => if d.Table? then Table(d.entries - {k}) else d
    case Push(x) => if d.List? then List(d.items + [x]) else d
    case Replace(items) => List(items)
  }

  /** What a caller does to a scope it may write. */
  datatype Call =
    | SetLevel(level: Option<Id>)
    | SetFingerprint(fingerprint: Option<seq<Id>>)
    | SetTransaction(transaction: Option<Id>)
    | SetUser(user: Option<Id>)
    | SetSpan(span: Option<Addr>)
    | EditSection(section: Section, edit: Edit)
    | ClearBreadcrumbs
    | Clear

  /** What scopes share on purpose: session cells, by address, and the names of the open transactions. */
  datatype Shared = Shared(sessions: seq<Option<Id>>, transactions: map<Addr, Id>)

  /** The effect on a scope; clearing it gives it a new and empty session cell. */
  function Called(call: Call, s: ScopeOf<Data>, shared: Shared): ScopeOf<Data> {
    match call
    case SetLevel(x) => s.(plain := s.plain.(level := x))
    case SetFingerprint(x) => s.(plain := s.plain.(fingerprint := x))
    case SetTransaction(x) => s.(plain := s.plain.(transaction := x))
    case SetUser(x) => s.(plain := s.plain.(user := x))
    case SetSpan(x) => s.(plain := s.plain.(span := x))
    case EditSection(f, edit) => s.(sections := s.sections.Put(f, Edited(edit, s.sections.Get(f))))
    case ClearBreadcrumbs => s.(sections := s.sections.(trail := List([])))
    case Clear => Scope(DEFAULT_PLAIN, |shared.sessions|, EMPTY_SECTIONS)
  }

  /** The effect on what is shared: naming a scope's transaction renames the open one its span belongs to. */
  function CalledShared(call: Call, plain: Plain, shared: Shared): Shared {
    match call
    case SetTransaction(Some(name)) =>
      if plain.span.Some? && plain.span.value in shared.transactions
      then shared.(transactions := shared.transactions[plain.span.value := name])
      else shared
    case Clear => shared.(sessions := shared.sessions + [None])
    case _ => shared
  }

  function CallAll(calls: seq<Call>, s: ScopeOf<Data>, shared: Shared): (ScopeOf<Data>, Shared) {
    if calls == [] then (s, shared) else
    var (s', shared') := CallAll(calls[..|calls| - 1], s, shared);
    (Called(calls[|calls| - 1], s', shared'), CalledShared(calls[|calls| - 1], s'.plain, shared'))
  }

  /** What hubs and layers read. */
  datatype World = World(hubs: map<Id, Stack<ScopeOf<Data>>>, held: map<Id, Layer<ScopeOf<Data>>>, shared: Shared) {
    function WithTop(h: Id, scope: ScopeOf<Data>): World
      requires h in hubs
    {
      this.(hubs := hubs[h := hubs[h].(top := hubs[h].top.(scope := scope))])
    }
  }

  /** A step of some hub; `Hold` is a call in flight that cloned the top layer to read from it. */
  datatype Op =
    | PushScope(hub: Id)
    | PopScope(hub: Id)
    | ConfigureScope(hub: Id, calls: seq<Call>)
    | AddBreadcrumb(hub: Id, offered: seq<Id>)
    | StartSession(hub: Id, session: Id)
    | EndSession(hub: Id)
    | BindClient(hub: Id, client: Option<Client>)
    | NewFromTop(hub: Id, other: Id)
    | Hold(hub: Id, reader: Id)
    | Release(hub: Id, reader: Id)

  /** What a step means; popping an empty stack panics and changes nothing. */
  function Step(op: Op, w: World): World {
    if op.hub !in w.hubs then w else
    var h, stack := op.hub, w.hubs[op.hub];
    match op
    case PushScope(_) => w.(hubs := w.hubs[h := Stack(stack.top, stack.layers + [stack.top])])
    case PopScope(_) =>
      if stack.layers == [] then w
      else w.(hubs := w.hubs[h := Stack(stack.layers[|stack.layers| - 1], stack.layers[..|stack.layers| - 1])])
    case ConfigureScope(_, calls) => Configured(w, h, calls)
    case AddBreadcrumb(_, offered) => Crumbed(w, h, offered)
    case StartSession(_, session) => Started(w, h, session)
    case EndSession(_) =>
      var cell := stack.top.scope.session;
      if cell < |w.shared.sessions|
      then w.(shared := w.shared.(sessions := w.shared.sessions[cell := None]))
      else w
    case BindClient(_, client) => w.(hubs := w.hubs[h := stack.(top := stack.top.(client := client))])
    case NewFromTop(_, other) => w.(hubs := w.hubs[other := Stack(stack.top, [])])
    case Hold(_, reader) => w.(held := w.held[reader := stack.top])
    case Release(_, reader) => w.(held := w.held - {reader})
  }

  function Configured(w: World, h: Id, calls: seq<Call>): World
    requires h in w.hubs
  {
    var (scope, shared) := CallAll(calls, w.hubs[h].top.scope, w.shared);
    w.WithTop(h, scope).(shared := shared)
  }

  /** A new session gets a new cell, when a client with a release is bound. */
  function Started(w: World, h: Id, session: Id): World
    requires h in w.hubs
  {
    var top := w.hubs[h].top;
    if top.client.None? || !top.client.value.release then w
    else w.WithTop(h, top.scope.(session := |w.shared.sessions|))
          .(shared := w.shared.(sessions := w.shared.sessions + [Some(session)]))
  }

  function Crumbed(w: World, h: Id, offered: seq<Id>): World
    requires h in w.hubs
  {
    var top := w.hubs[h].top;
    if top.client.None? then w else w.WithTop(h, Trailed(top.scope, top.client.value.options, offered))
  }

  lemma StepOnTop(w: World, op: Op)
    requires op.hub in w.hubs
    ensures op.ConfigureScope? ==> Step(op, w) == Configured(w, op.hub, op.calls)
    ensures op.StartSession? ==> Step(op, w) == Started(w, op.hub, op.session)
    ensures op.AddBreadcrumb? ==> Step(op, w) == Crumbed(w, op.hub, op.offered)
  {}

  function Trailed(s: ScopeOf<Data>, options: Options<Id>, offered: seq<Id>): ScopeOf<Data> {
    if s.sections.trail.List?
    then s.(sections := s.sections.(trail := List(Breadcrumbs.Trail(options, s.sections.trail.items, offered))))
    else s
  }

  function At(data: seq<Data>, a: Addr): Data {
    if a < |data| then data[a] else List([])
  }

  /** The values behind the pointers of a scope. */
  function Read(scopes: seq<ScopeOf<Addr>>, data: seq<Data>, s: Addr): ScopeOf<Data> {
    if s < |scopes| then Deref(scopes[s], data) else Scope(DEFAULT_PLAIN, 0, EMPTY_SECTIONS)
  }

  function Deref(s: ScopeOf<Addr>, data: seq<Data>): (r: ScopeOf<Data>)
    ensures forall f :: r.sections.Get(f) == At(data, s.sections.Get(f))
  {
    var at := s.sections;
    Scope(s.plain, s.session,
          Sections(At(data, at.trail), At(data, at.extra), At(data, at.tags), At(data, at.contexts),
                   At(data, at.processors), At(data, at.attachments)))
  }

  function ReadLayer(scopes: seq<ScopeOf<Addr>>, data: seq<Data>, layer: Layer<Addr>): Layer<ScopeOf<Data>> {
    Layer(layer.client, Read(scopes, data, layer.scope))
  }

  function ReadStack(scopes: seq<ScopeOf<Addr>>, data: seq<Data>, stack: Stack<Addr>): Stack<ScopeOf<Data>> {
    Stack(ReadLayer(scopes, data, stack.top),
          seq(|stack.layers|, i requires 0 <= i < |stack.layers| => ReadLayer(scopes, data, stack.layers[i])))
  }

  lemma SameSections<T>(a: Sections<T>, b: Sections<T>)
    requires forall f :: a.Get(f) == b.Get(f)
    ensures a == b
  {
    assert a.Get(Trail) == b.Get(Trail) && a.Get(Extra) == b.Get(Extra) && a.Get(Tags) == b.Get(Tags);
    assert a.Get(Contexts) == b.Get(Contexts) && a.Get(Processors) == b.Get(Processors);
    assert a.Get(Attachments) == b.Get(Attachments);
  }

  function Patched(s: ScopeOf<Data>, f: Section, now: Data): ScopeOf<Data> {
    s.(sections := s.sections.Put(f, now))
  }

  /** Writing a copy shows in the scope that gets it and nowhere else. */
  lemma CopyIsPrivate(scopes: seq<ScopeOf<Addr>>, data: seq<Data>, s: Addr, f: Section, now: Data, t: Addr)
    requires s < |scopes| && t < |scopes|
    requires forall g :: scopes[t].sections.Get(g) < |data|
    ensures var copied := scopes[s := scopes[s].(sections := scopes[s].sections.Put(f, |data|))];
            var before := Read(scopes, data, t);
            Read(copied, data + [now], t) == if t == s then Patched(before, f, now) else before
  {
    var copied := scopes[s := scopes[s].(sections := scopes[s].sections.Put(f, |data|))];
    var before := Read(scopes, data, t);
    SameSections(Read(copied, data + [now], t).sections,
                 if t == s then Patched(before, f, now).sections else before.sections);
  }

  /** So does writing data that nothing else points to. */
  lemma OnlyOwnerSees(scopes: seq<ScopeOf<Addr>>, data: seq<Data>, s: Addr, f: Section, now: Data, t: Addr)
    requires s < |scopes| && t < |scopes|
    requires scopes[s].sections.Get(f) < |data|
    requires forall g :: (t, g) != (s, f) ==> scopes[t].sections.Get(g) != scopes[s].sections.Get(f)
    ensures var before := Read(scopes, data, t);
            Read(scopes, data[scopes[s].sections.Get(f) := now], t)
            == if t == s then Patched(before, f, now) else before
  {
    var before := Read(scopes, data, t);
    SameSections(Read(scopes, data[scopes[s].sections.Get(f) := now], t).sections,
                 if t == s then Patched(before, f, now).sections else before.sections);
  }

  predicate Refers(stack: Stack<Addr>, s: Addr) {
    stack.top.scope == s || exists i :: 0 <= i < |stack.layers| && stack.layers[i].scope == s
  }

  /** A stack reads the same when the scopes it refers to do. */
  lemma SameStack(scopes: seq<ScopeOf<Addr>>, data: seq<Data>, scopes': seq<ScopeOf<Addr>>, data': seq<Data>,
                  stack: Stack<Addr>)
    requires forall s :: Refers(stack, s) ==> Read(scopes', data', s) == Read(scopes, data, s)
    ensures ReadStack(scopes', data', stack) == ReadStack(scopes, data, stack)
  {
    assert Refers(stack, stack.top.scope);
    forall i | 0 <= i < |stack.layers|
      ensures ReadLayer(scopes', data', stack.layers[i]) == ReadLayer(scopes, data, stack.layers[i])
    {
      assert Refers(stack, stack.layers[i].scope);
    }
  }

  ghost function ReadHubs(scopes: seq<ScopeOf<Addr>>, data: seq<Data>, hubs: map<Id, Stack<Addr>>)
    : map<Id, Stack<ScopeOf<Data>>>
  {
    map h | h in hubs :: ReadStack(scopes, data, hubs[h])
  }

  ghost function ReadHeld(scopes: seq<ScopeOf<Addr>>, data: seq<Data>, held: map<Id, Layer<Addr>>)
    : map<Id, Layer<ScopeOf<Data>>>
  {
    map k | k in held :: ReadLayer(scopes, data, held[k])
  }

  /** Another stack for one hub reads as that stack, and the other hubs as before. */
  lemma HubUpdated(scopes: seq<ScopeOf<Addr>>, data: seq<Data>, hubs: map<Id, Stack<Addr>>, h: Id, stack: Stack<Addr>)
    ensures ReadHubs(scopes, data, hubs[h := stack])
            == ReadHubs(scopes, data, hubs)[h := ReadStack(scopes, data, stack)]
  {}

  lemma HeldUpdated(scopes: seq<ScopeOf<Addr>>, data: seq<Data>, held: map<Id, Layer<Addr>>, k: Id, layer: Layer<Addr>)
    ensures ReadHeld(scopes, data, held[k := layer])
            == ReadHeld(scopes, data, held)[k := ReadLayer(scopes, data, layer)]
  {}

  lemma HeldReleased(scopes: seq<ScopeOf<Addr>>, data: seq<Data>, held: map<Id, Layer<Addr>>, k: Id)
    ensures ReadHeld(scopes, data, held - {k}) == ReadHeld(scopes, data, held) - {k}
  {}

  /** A stack reads as its top layer above its saved layers. */
  lemma PushedReads(scopes: seq<ScopeOf<Addr>>, data: seq<Data>, stack: Stack<Addr>)
    ensures var seen := ReadStack(scopes, data, stack);
            ReadStack(scopes, data, Stack(stack.top, stack.layers + [stack.top]))
            == Stack(seen.top, seen.layers + [seen.top])
  {}

  lemma PoppedReads(scopes: seq<ScopeOf<Addr>>, data: seq<Data>, stack: Stack<Addr>)
    requires stack.layers != []
    ensures var seen, last := ReadStack(scopes, data, stack), |stack.layers| - 1;
            ReadStack(scopes, data, Stack(stack.layers[last], stack.layers[..last]))
            == Stack(seen.layers[last], seen.layers[..last])
  {}

  /** Moving the top of a stack to a copy of its scope changes nothing that is read. */
  lemma MovedReads(scopes: seq<ScopeOf<Addr>>, data: seq<Data>, hubs: map<Id, Stack<Addr>>, h: Id)
    requires h in hubs
    requires forall g, s: Addr :: g in hubs && Refers(hubs[g], s) ==> s < |scopes|
    ensures var stack := hubs[h];
            assert Refers(stack, stack.top.scope);
            ReadHubs(scopes + [scopes[stack.top.scope]], data,
                     hubs[h := stack.(top := stack.top.(scope := |scopes|))])
            == ReadHubs(scopes, data, hubs)
  {
    var stack := hubs[h];
    assert Refers(stack, stack.top.scope);
    var scopes' := scopes + [scopes[stack.top.scope]];
    forall g | g in hubs
      ensures ReadStack(scopes', data, hubs[g]) == ReadStack(scopes, data, hubs[g])
    {
      SameStack(scopes, data, scopes', data, hubs[g]);
    }
    var moved := stack.(top := stack.top.(scope := |scopes|));
    assert ReadStack(scopes', data, moved) == ReadStack(scopes, data, stack) by {
      assert ReadStack(scopes', data, moved).layers == ReadStack(scopes', data, stack).layers;
    }
  }

  /** Hubs read the same when every scope they refer to does. */
  lemma SameHubs(scopes: seq<ScopeOf<Addr>>, data: seq<Data>, scopes': seq<ScopeOf<Addr>>, data': seq<Data>,
                 hubs: map<Id, Stack<Addr>>)
    requires forall g, s: Addr :: g in hubs && Refers(hubs[g], s) ==> Read(scopes', data', s) == Read(scopes, data, s)
    ensures ReadHubs(scopes', data', hubs) == ReadHubs(scopes, data, hubs)
  {
    forall g | g in hubs
      ensures ReadStack(scopes', data', hubs[g]) == ReadStack(scopes, data, hubs[g])
    {
      SameStack(scopes, data, scopes', data', hubs[g]);
    }
  }

  /** When nothing else refers to the scope of a top layer, writing it changes that layer only. */
  lemma TopWritten(scopes: seq<ScopeOf<Addr>>, data: seq<Data>, scopes': seq<ScopeOf<Addr>>, data': seq<Data>,
                   hubs: map<Id, Stack<Addr>>, h: Id)
    requires h in hubs
    requires forall g, s :: g in hubs && g != h && Refers(hubs[g], s) ==>
               Read(scopes', data', s) == Read(scopes, data, s)
    requires forall i :: 0 <= i < |hubs[h].layers| ==>
               Read(scopes', data', hubs[h].layers[i].scope) == Read(scopes, data, hubs[h].layers[i].scope)
    ensures var before := ReadHubs(scopes, data, hubs);
            ReadHubs(scopes', data', hubs)
            == before[h := before[h].(top := before[h].top.(scope := Read(scopes', data', hubs[h].top.scope)))]
  {
    forall g | g in hubs && g != h
      ensures ReadStack(scopes', data', hubs[g]) == ReadStack(scopes, data, hubs[g])
    {
      SameStack(scopes, data, scopes', data', hubs[g]);
    }
    assert ReadStack(scopes', data', hubs[h]).layers == ReadStack(scopes, data, hubs[h]).layers;
  }

  lemma WrittenReads(scopes: seq<ScopeOf<Addr>>, data: seq<Data>, s: Addr, scope: ScopeOf<Addr>, t: Addr)
    requires s < |scopes|
    ensures Read(scopes[s := scope], data, t) == if t == s then Deref(scope, data) else Read(scopes, data, t)
  {}

  lemma MoreScopes(scopes: seq<ScopeOf<Addr>>, data: seq<Data>, s: Addr, t: Addr)
    requires s < |scopes| && t <= |scopes|
    ensures Read(scopes + [scopes[s]], data, t) == if t == |scopes| then Read(scopes, data, s) else Read(scopes, data, t)
  {}

  lemma PatchedSame(s: ScopeOf<Data>, f: Section)
    ensures Patched(s, f, s.sections.Get(f)) == s
  {
    SameSections(s.sections.Put(f, s.sections.Get(f)), s.sections);
  }

  lemma SameScope(scopes: seq<ScopeOf<Addr>>, scopes': seq<ScopeOf<Addr>>, data: seq<Data>, t: Addr)
    requires t < |scopes| && t < |scopes'| && scopes[t] == scopes'[t]
    ensures Read(scopes, data, t) == Read(scopes', data, t)
  {}

  /** More data elsewhere changes nothing that is read. */
  lemma MoreData(scopes: seq<ScopeOf<Addr>>, data: seq<Data>, more: seq<Data>, t: Addr)
    requires t < |scopes| && forall f :: scopes[t].sections.Get(f) < |data|
    ensures Read(scopes, data + more, t) == Read(scopes, data, t)
  {
    SameSections(Read(scopes, data + more, t).sections, Read(scopes, data, t).sections);
  }

  class Process {
    var hubs: map<Id, Stack<Addr>>
    var held: map<Id, Layer<Addr>>
    var scopes: seq<ScopeOf<Addr>>
    var data: seq<Data>
    var shared: Shared
    var owned: Option<Addr>   // the clone a configuration callback is writing

    /** The process starts with one hub that has a default scope and no client. */
    constructor (main: Id, transactions: map<Addr, Id>)
      ensures Valid() && owned == None
      ensures View() == World(map[main := Stack(Layer(None, Scope(DEFAULT_PLAIN, 0, EMPTY_SECTIONS)), [])], map[],
                              Shared([None], transactions))
    {
      hubs, held := map[main := Stack(Layer(None, 0), [])], map[];
      scopes := [Scope(DEFAULT_PLAIN, 0, Sections(0, 1, 2, 3, 4, 5))];
      data := [List([]), Table(map[]), Table(map[]), Table(map[]), List([]), List([])];
      shared := Shared([None], transactions);
      owned := None;
      new;
      assert Read(scopes, data, 0) == Scope(DEFAULT_PLAIN, 0, EMPTY_SECTIONS);
      assert ReadHubs(scopes, data, hubs)[main] == Stack(Layer(None, Read(scopes, data, 0)), []);
    }

    /** A layer leads to the scope, or it is the clone being configured. */
    predicate Live(s: Addr)
      reads this`hubs, this`held, this`owned
    {
      || (exists h :: h in hubs && Refers(hubs[h], s))
      || (exists k :: k in held && held[k].scope == s)
      || owned == Some(s)
    }

    /** Some handle other than the top of the hub's stack leads to the scope of that top. */
    predicate TopIsShared(h: Id)
      requires h in hubs
      reads this`hubs, this`held, this`owned
    {
      var s := hubs[h].top.scope;
      || (exists i :: 0 <= i < |hubs[h].layers| && hubs[h].layers[i].scope == s)
      || (exists g :: g in hubs && g != h && Refers(hubs[g], s))
      || (exists k :: k in held && held[k].scope == s)
      || owned == Some(s)
    }

    /** Some other section of a reachable scope points to the same data. */
    predicate SectionIsShared(s: Addr, f: Section)
      requires s < |scopes|
      reads this
    {
      exists t: Addr, g :: t < |scopes| && Live(t) && (t, g) != (s, f) &&
        scopes[t].sections.Get(g) == scopes[s].sections.Get(f)
    }

    ghost predicate Valid()
      reads this
    {
      && (forall s: Addr :: Live(s) ==> s < |scopes|)
      && (forall s: Addr, f :: s < |scopes| ==> scopes[s].sections.Get(f) < |data|)
    }

    ghost function View(): World
      reads this
    {
      World(ReadHubs(scopes, data, hubs), ReadHeld(scopes, data, held), shared)
    }

    /** Gives a scope a copy of one section's data if something else reads it. */
    method MakeSectionMut(s: Addr, f: Section)
      requires Valid() && Live(s)
      modifies this`data, this`scopes
      ensures Valid() && |scopes| == old(|scopes|) && !SectionIsShared(s, f)
      ensures forall t: Addr :: Live(t) ==> Read(scopes, data, t) == old(Read(scopes, data, t))
    {
      if SectionIsShared(s, f) {
        var now := data[scopes[s].sections.Get(f)];
        PatchedSame(Read(scopes, data, s), f);
        assert Read(scopes, data, s).sections.Get(f) == now;
        hide Patched, Read, Live, Sections.Get, Sections.Put;
        ghost var scopes0, data0 := scopes, data;
        scopes := scopes[s := scopes[s].(sections := scopes[s].sections.Put(f, |data|))];
        data := data + [now];
        forall t: Addr | Live(t)
          ensures Read(scopes, data, t) == Read(scopes0, data0, t)
        {
          CopyIsPrivate(scopes0, data0, s, f, now, t);
        }
      }
    }

    /** Changes one section of a scope; no other scope in use reads differently. */
    method EditSection(s: Addr, f: Section, edit: Edit)
      requires Valid() && Live(s)
      modifies this`data, this`scopes
      ensures Valid() && |scopes| == old(|scopes|)
      ensures forall t: Addr :: Live(t) && t != s ==> Read(scopes, data, t) == old(Read(scopes, data, t))
      ensures Read(scopes, data, s) == Called(Call.EditSection(f, edit), old(Read(scopes, data, s)), shared)
    {
      MakeSectionMut(s, f);
      var a := scopes[s].sections.Get(f);
      var now := Edited(edit, data[a]);
      assert Read(scopes, data, s).sections.Get(f) == data[a];
      hide Read, Live, Sections.Get, Sections.Put;
      ghost var data0 := data;
      data := data[a := now];
      forall t: Addr | Live(t)
        ensures Read(scopes, data, t)
                == if t == s then Patched(Read(scopes, data0, t), f, now) else Read(scopes, data0, t)
      {
        OnlyOwnerSees(scopes, data0, s, f, now, t);
      }
    }

    /** `Hub::push_scope`: saves a clone of the top layer. */
    method PushScope(h: Id)
      requires Valid() && h in hubs
      modifies this`hubs
      ensures Valid() && View() == Step(Op.PushScope(h), old(View()))
    {
      var stack := hubs[h];
      ghost var hubs0 := hubs;
      hubs := hubs[h := Stack(stack.top, stack.layers + [stack.top])];
      HubUpdated(scopes, data, hubs0, h, hubs[h]);
      PushedReads(scopes, data, stack);
      assert forall s: Addr :: Refers(hubs[h], s) ==> Refers(stack, s);
      assert forall s: Addr :: Live(s) ==> old(Live(s));
    }

    /** `Stack::pop`; `popped` is false where the source panics. */
    method PopScope(h: Id) returns (popped: bool)
      requires Valid() && h in hubs
      modifies this`hubs
      ensures Valid() && View() == Step(Op.PopScope(h), old(View()))
      ensures popped == (old(hubs[h].layers) != [])
    {
      var stack := hubs[h];
      popped := stack.layers != [];
      if popped {
        ghost var hubs0 := hubs;
        var last := |stack.layers| - 1;
        hubs := hubs[h := Stack(stack.layers[last], stack.layers[..last])];
        HubUpdated(scopes, data, hubs0, h, hubs[h]);
        PoppedReads(scopes, data, stack);
        assert forall s: Addr :: Refers(hubs[h], s) ==> Refers(stack, s);
      assert forall s: Addr :: Live(s) ==> old(Live(s));
      }
    }

    method BindClient(h: Id, client: Option<Client>)
      requires Valid() && h in hubs
      modifies this`hubs
      ensures Valid() && View() == Step(Op.BindClient(h, client), old(View()))
    {
      ghost var hubs0 := hubs;
      var stack := hubs[h];
      hubs := hubs[h := stack.(top := stack.top.(client := client))];
      HubUpdated(scopes, data, hubs0, h, hubs[h]);
      assert forall s: Addr :: Refers(hubs[h], s) ==> Refers(stack, s);
      assert forall s: Addr :: Live(s) ==> old(Live(s));
    }

    /** `Hub::new_from_top`: another hub, whose only layer is a clone of the top of this one. */
    method NewFromTop(h: Id, other: Id)
      requires Valid() && h in hubs
      modifies this`hubs
      ensures Valid() && View() == Step(Op.NewFromTop(h, other), old(View()))
    {
      ghost var hubs0 := hubs;
      assert Refers(hubs[h], hubs[h].top.scope);
      hubs := hubs[other := Stack(hubs[h].top, [])];
      HubUpdated(scopes, data, hubs0, other, hubs[other]);
      assert ReadStack(scopes, data, hubs[other]) == Stack(ReadLayer(scopes, data, hubs[h].top), []);
      assert forall s: Addr :: Refers(hubs[other], s) ==> s == hubs[h].top.scope;
      assert forall s: Addr :: Live(s) ==> old(Live(s));
    }

    /** A call that reads from a clone of the top layer, outside the lock, begins. */
    method Hold(h: Id, reader: Id)
      requires Valid() && h in hubs
      modifies this`held
      ensures Valid() && View() == Step(Op.Hold(h, reader), old(View()))
    {
      HeldUpdated(scopes, data, held, reader, hubs[h].top);
      held := held[reader := hubs[h].top];
      assert Refers(hubs[h], hubs[h].top.scope);
      assert forall s: Addr :: Live(s) ==> old(Live(s));
    }

    method Release(h: Id, reader: Id)
      requires Valid() && h in hubs
      modifies this`held
      ensures Valid() && View() == Step(Op.Release(h, reader), old(View()))
    {
      HeldReleased(scopes, data, held, reader);
      held := held - {reader};
      assert forall s: Addr :: Live(s) ==> old(Live(s));
    }

    /** `Hub::end_session_with_status` takes the session out of the cell the scope may share. */
    method EndSession(h: Id)
      requires Valid() && h in hubs
      modifies this`shared
      ensures Valid() && View() == Step(Op.EndSession(h), old(View()))
    {
      assert Refers(hubs[h], hubs[h].top.scope) && Live(hubs[h].top.scope);
      var cell := scopes[hubs[h].top.scope].session;
      if cell < |shared.sessions| {
        shared := shared.(sessions := shared.sessions[cell := None]);
      }
    }

    /** Points the top layer to a copy of its scope. */
    method CopyTop(h: Id)
      requires Valid() && h in hubs
      modifies this`hubs, this`scopes
      ensures Valid() && h in hubs && !TopIsShared(h)
      ensures var stack := old(hubs[h]);
              && stack.top.scope < old(|scopes|)
              && scopes == old(scopes) + [old(scopes[hubs[h].top.scope])]
              && hubs == old(hubs)[h := stack.(top := stack.top.(scope := old(|scopes|)))]
    {
      ghost var hubs0 := hubs;
      var stack, copy := hubs[h], |scopes|;
      assert Refers(stack, stack.top.scope) && Live(stack.top.scope) && !Live(copy);
      assert forall i :: 0 <= i < |stack.layers| ==> Refers(stack, stack.layers[i].scope);
      hubs := hubs[h := stack.(top := stack.top.(scope := copy))];
      scopes := scopes + [scopes[stack.top.scope]];
      assert forall t: Addr :: Refers(hubs[h], t) ==> Refers(stack, t) || t == copy;
      assert forall t: Addr :: Live(t) ==> old(Live(t)) || t == copy;
      assert !old(Live(copy));
      assert forall g :: g in hubs && g != h ==> !Refers(hubs[g], copy);
    }

    /** Gives the top layer a copy of its scope if anything else refers to it. */
    method MakeScopeMut(h: Id)
      requires Valid() && h in hubs
      modifies this`hubs, this`scopes
      ensures Valid() && h in hubs && !TopIsShared(h) && Live(hubs[h].top.scope)
      ensures View() == old(View())
      ensures owned.Some? ==> Live(owned.value)
      ensures forall t: Addr :: old(Live(t)) ==> Read(scopes, data, t) == old(Read(scopes, data, t))
      ensures Read(scopes, data, hubs[h].top.scope) == old(Read(scopes, data, hubs[h].top.scope))
      ensures hubs[h].top.client == old(hubs[h].top.client)
    {
      hide Read;
      ghost var hubs0, scopes0 := hubs, scopes;
      if TopIsShared(h) {
        forall g, s: Addr | g in hubs && Refers(hubs[g], s)
          ensures s < |scopes|
        {
          assert Live(s);
        }
        CopyTop(h);
        MovedReads(scopes0, data, hubs0, h);
        forall t: Addr | t <= |scopes0|
          ensures Read(scopes, data, t)
                  == if t == |scopes0| then Read(scopes0, data, hubs0[h].top.scope) else Read(scopes0, data, t)
        {
          MoreScopes(scopes0, data, hubs0[h].top.scope, t);
        }
        assert forall k :: k in held ==> Live(held[k].scope);
        HeldReads(scopes0);
      }
      assert Refers(hubs[h], hubs[h].top.scope);
    }

    lemma HeldReads(scopes0: seq<ScopeOf<Addr>>)
      requires forall t: Addr :: t < |scopes0| ==> Read(scopes, data, t) == Read(scopes0, data, t)
      requires forall k :: k in held ==> held[k].scope < |scopes0|
      ensures ReadHeld(scopes, data, held) == ReadHeld(scopes0, data, held)
    {}

    /** Another scope in place of this one, some of it pointing to new data. */
    method Replace(s: Addr, scope: ScopeOf<Addr>, more: seq<Data>)
      requires Valid() && owned == Some(s) && s < |scopes|
      requires forall f :: scope.sections.Get(f) < |data| + |more|
      modifies this`data, this`scopes
      ensures Valid() && data == old(data) + more && scopes == old(scopes)[s := scope]
      ensures forall t: Addr :: Live(t) && t != s ==> Read(scopes, data, t) == old(Read(scopes, data, t))
    {
      assert Live(s);
      hide Read, Live, Sections.Get;
      ghost var scopes0, data0 := scopes, data;
      scopes := scopes[s := scope];
      data := data + more;
      forall t: Addr | Live(t) && t != s
        ensures Read(scopes, data, t) == Read(scopes0, data0, t)
      {
        MoreData(scopes0, data0, more, t);
        SameScope(scopes0, scopes, data, t);
      }
    }

    method WritePlain(s: Addr, plain: Plain)
      requires Valid() && owned == Some(s) && s < |scopes|
      modifies this`scopes
      ensures Valid() && |scopes| == old(|scopes|)
      ensures forall t: Addr :: t != s ==> Read(scopes, data, t) == old(Read(scopes, data, t))
      ensures Read(scopes, data, s) == old(Read(scopes, data, s)).(plain := plain)
    {
      scopes := scopes[s := scopes[s].(plain := plain)];
    }

    /** What a caller does to a clone that nothing else refers to. */
    method CallOnOwned(s: Addr, call: Call)
      requires Valid() && owned == Some(s)
      modifies this`data, this`scopes, this`shared
      ensures Valid() && |scopes| == old(|scopes|)
      ensures forall t: Addr :: Live(t) && t != s ==> Read(scopes, data, t) == old(Read(scopes, data, t))
      ensures Read(scopes, data, s) == Called(call, old(Read(scopes, data, s)), old(shared))
      ensures shared == CalledShared(call, old(Read(scopes, data, s)).plain, old(shared))
    {
      assert Live(s);
      var scope := scopes[s];
      match call
      case SetLevel(x) => WritePlain(s, scope.plain.(level := x));
      case SetFingerprint(x) => WritePlain(s, scope.plain.(fingerprint := x));
      case SetTransaction(x) =>
        WritePlain(s, scope.plain.(transaction := x));
        if x.Some? && scope.plain.span.Some? && scope.plain.span.value in shared.transactions {
          shared := shared.(transactions := shared.transactions[scope.plain.span.value := x.value]);
        }
      case SetUser(x) => WritePlain(s, scope.plain.(user := x));
      case SetSpan(x) => WritePlain(s, scope.plain.(span := x));
      case EditSection(f, edit) => EditSection(s, f, edit);
      case ClearBreadcrumbs =>
        assert forall f :: scope.sections.Get(f) < |data|;
        Replace(s, scope.(sections := scope.sections.Put(Trail, |data|)), [List([])]);
      case Clear =>
        var n := |data|;
        Replace(s, Scope(DEFAULT_PLAIN, |shared.sessions|, Sections(n, n + 1, n + 2, n + 3, n + 4, n + 5)),
                [List([]), Table(map[]), Table(map[]), Table(map[]), List([]), List([])]);
        shared := shared.(sessions := shared.sessions + [None]);
    }

    /** A clone of the top scope, held by value. */
    method CloneTop(h: Id) returns (s: Addr)
      requires Valid() && owned == None && h in hubs
      modifies this`scopes, this`owned
      ensures Valid() && owned == Some(s) && View() == old(View())
      ensures Read(scopes, data, s) == old(Read(scopes, data, hubs[h].top.scope))
      ensures forall g :: g in hubs ==> !Refers(hubs[g], s)
      ensures forall k :: k in held ==> held[k].scope != s
    {
      assert Refers(hubs[h], hubs[h].top.scope) && Live(hubs[h].top.scope);
      s := |scopes|;
      assert !Live(s);
      hide Read;
      ghost var scopes0 := scopes;
      forall t: Addr | t <= |scopes|
        ensures Read(scopes + [scopes[hubs[h].top.scope]], data, t)
                == if t == |scopes| then Read(scopes, data, hubs[h].top.scope) else Read(scopes, data, t)
      {
        MoreScopes(scopes, data, hubs[h].top.scope, t);
      }
      forall g, t: Addr | g in hubs && Refers(hubs[g], t)
        ensures t < s
      {
        assert Live(t);
      }
      scopes := scopes + [scopes[hubs[h].top.scope]];
      owned := Some(s);
      SameHubs(scopes0, data, scopes, data, hubs);
      assert forall t: Addr :: Live(t) ==> old(Live(t)) || t == s;
      assert forall k :: k in held ==> old(Live(held[k].scope));
      HeldReads(scopes0);
    }

    /** The caller's changes, one after the other. */
    method CallAllOnOwned(s: Addr, calls: seq<Call>)
      requires Valid() && owned == Some(s)
      modifies this`data, this`scopes, this`shared
      ensures Valid()
      ensures (Read(scopes, data, s), shared) == CallAll(calls, old(Read(scopes, data, s)), old(shared))
      ensures forall t: Addr :: Live(t) && t != s ==> Read(scopes, data, t) == old(Read(scopes, data, t))
    {
      hide Valid, Live, Read, Called, CalledShared;
      var i := 0;
      while i < |calls|
        invariant 0 <= i <= |calls|
        invariant Valid()
        invariant (Read(scopes, data, s), shared) == CallAll(calls[..i], old(Read(scopes, data, s)), old(shared))
        invariant forall t: Addr :: Live(t) && t != s ==> Read(scopes, data, t) == old(Read(scopes, data, t))
      {
        assert calls[..i + 1][..i] == calls[..i];
        CallOnOwned(s, calls[i]);
        i := i + 1;
      }
      assert calls[..|calls|] == calls;
    }

    /** Writes the scope of a top layer that nothing else refers to. */
    method WriteTop(h: Id, scope: ScopeOf<Addr>)
      requires Valid() && h in hubs && !TopIsShared(h)
      requires forall f :: scope.sections.Get(f) < |data|
      modifies this`scopes
      ensures Valid() && |scopes| == old(|scopes|)
      ensures View() == old(View()).WithTop(h, Deref(scope, data))
    {
      hide Read, Deref;
      var s := hubs[h].top.scope;
      assert Refers(hubs[h], s) && Live(s);
      ghost var scopes0 := scopes;
      scopes := scopes[s := scope];
      forall t: Addr
        ensures Read(scopes, data, t) == if t == s then Deref(scope, data) else Read(scopes0, data, t)
      {
        WrittenReads(scopes0, data, s, scope, t);
      }
      TopWritten(scopes0, data, scopes, data, hubs, h);
    }

    /** The clone is gone once it has been stored. */
    method DropOwned()
      requires Valid()
      modifies this`owned
      ensures Valid() && owned == None && View() == old(View())
    {
      owned := None;
      assert forall t: Addr :: Live(t) ==> old(Live(t));
    }

    /** Stores the clone as the top scope. */
    method StoreTop(h: Id)
      requires Valid() && owned.Some? && h in hubs
      modifies this`hubs, this`scopes, this`owned
      ensures Valid() && owned == None
      ensures View() == old(View()).WithTop(h, old(Read(scopes, data, owned.value)))
    {
      assert Live(owned.value);
      hide View, Valid, Live, TopIsShared, Refers;
      MakeScopeMut(h);
      LiveIsKnown(owned.value);
      WriteTop(h, scopes[owned.value]);
      DropOwned();
    }

    /** When only the clone reads differently, hubs and layers read the same. */
    twostate lemma OnlyOwnedChanged(s: Addr)
      requires hubs == old(hubs) && held == old(held) && owned == old(owned)
      requires forall g :: g in hubs ==> !Refers(hubs[g], s)
      requires forall k :: k in held ==> held[k].scope != s
      requires forall t: Addr :: Live(t) && t != s ==> Read(scopes, data, t) == old(Read(scopes, data, t))
      ensures View() == old(View()).(shared := shared)
    {
      hide Read;
      forall g, t: Addr | g in hubs && Refers(hubs[g], t)
        ensures Read(scopes, data, t) == old(Read(scopes, data, t))
      {
        assert Live(t);
      }
      SameHubs(old(scopes), old(data), scopes, data, hubs);
      assert forall k :: k in held ==> Live(held[k].scope);
    }

    /** `Hub::configure_scope`: clones the scope, lets the caller change the clone, and stores it. */
    method ConfigureScope(h: Id, calls: seq<Call>)
      requires Valid() && owned == None && h in hubs
      modifies this
      ensures Valid() && owned == None && View() == Step(Op.ConfigureScope(h, calls), old(View()))
    {
      hide Step, View, Valid, Live, TopIsShared, Refers, Read;
      TopReads(h);
      StepOnTop(View(), Op.ConfigureScope(h, calls));
      var s := CloneTop(h);
      label cloned:
      CallAllOnOwned(s, calls);
      OnlyOwnedChanged@cloned(s);
      StoreTop(h);
    }

    method Share(shared': Shared)
      requires Valid()
      modifies this`shared
      ensures Valid() && shared == shared' && View() == old(View()).(shared := shared')
    {
      shared := shared';
    }

    /** `Hub::start_session` puts the session into a cell of its own, if the client can have one. */
    method StartSession(h: Id, session: Id)
      requires Valid() && owned == None && h in hubs
      modifies this
      ensures Valid() && owned == None && View() == Step(Op.StartSession(h, session), old(View()))
    {
      hide Step, View, Valid, Live, TopIsShared, Refers, Read;
      TopReads(h);
      StepOnTop(View(), Op.StartSession(h, session));
      var client := hubs[h].top.client;
      if client.Some? && client.value.release {
        MakeScopeMut(h);
        var s := hubs[h].top.scope;
        LiveIsKnown(s);
        SessionReads(s, |shared.sessions|);
        WriteTop(h, scopes[s].(session := |shared.sessions|));
        Share(shared.(sessions := shared.sessions + [Some(session)]));
      }
    }

    lemma SessionReads(s: Addr, cell: Addr)
      requires s < |scopes|
      ensures Deref(scopes[s].(session := cell), data) == Read(scopes, data, s).(session := cell)
    {}

    lemma TrailReads(s: Addr)
      requires Valid() && s < |scopes|
      ensures scopes[s].sections.Get(Trail) == scopes[s].sections.trail < |data|
      ensures Read(scopes, data, s).sections.trail == data[scopes[s].sections.trail]
    {}

    lemma LiveIsKnown(s: Addr)
      requires Valid() && Live(s)
      ensures s < |scopes| && forall f :: scopes[s].sections.Get(f) < |data|
    {}

    lemma TopReads(h: Id)
      requires h in hubs
      ensures View().shared == shared && h in View().hubs && View().hubs[h].top == ReadLayer(scopes, data, hubs[h].top)
      ensures Live(hubs[h].top.scope)
    {
      assert Refers(hubs[h], hubs[h].top.scope);
    }

    /** Changes one section of the scope of a top layer that nothing else refers to. */
    method EditTop(h: Id, f: Section, edit: Edit)
      requires Valid() && h in hubs && !TopIsShared(h)
      modifies this`data, this`scopes
      ensures Valid()
      ensures View() == old(View()).WithTop(h, Called(Call.EditSection(f, edit),
                                                      old(Read(scopes, data, hubs[h].top.scope)), shared))
    {
      hide Read, Valid;
      var s := hubs[h].top.scope;
      assert Refers(hubs[h], s) && Live(s);
      EditSection(s, f, edit);
      TopWritten(old(scopes), old(data), scopes, data, hubs, h);
    }

    /** `Hub::add_breadcrumb`, when a client says how many to keep. */
    method AddBreadcrumb(h: Id, offered: seq<Id>)
      requires Valid() && owned == None && h in hubs
      modifies this
      ensures Valid() && owned == None && View() == Step(Op.AddBreadcrumb(h, offered), old(View()))
    {
      hide Step, View, Valid, Live, TopIsShared, Refers, Read;
      TopReads(h);
      StepOnTop(View(), Op.AddBreadcrumb(h, offered));
      var client := hubs[h].top.client;
      if client.Some? {
        MakeScopeMut(h);
        var s := hubs[h].top.scope;
        LiveIsKnown(s);
        TrailReads(s);
        var trail := data[scopes[s].sections.trail];
        if trail.List? {
          var trail' := Breadcrumbs.AddBreadcrumbs(client.value.options, trail.items, offered);
          EditTop(h, Trail, Edit.Replace(trail'));
        }
      }
    }
  }
}
