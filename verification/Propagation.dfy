/** Reading a trace from a list of headers: W3C Baggage (section 3) for the organization, and the fold over repeats. */
module Propagation {
  import opened Wrappers
  import opened Text
  import opened TraceHeaders

  /** The organization a baggage entry names, if it is a valid one; properties after a semicolon are dropped. */
  function EntryOrg(entry: string): Option<nat> {
    match SplitOnce(entry, '=')
    case None => None
    case Some((key, rest)) =>
      var value := match SplitOnce(rest, ';') { case None => rest case Some((value, _)) => value };
      if Trim(key) == SENTRY_ORG_ID then ParseU64(Trim(value)) else None
  }

  /** The last item that is there. */
  function LastSome<T>(items: seq<Option<T>>): Option<T> {
    if items == [] then None
    else if items[|items| - 1].Some? then items[|items| - 1]
    else LastSome(items[..|items| - 1])
  }

  predicate LastAt<T(==)>(items: seq<Option<T>>, i: nat, x: T) {
    i < |items| && items[i] == Some(x) && forall j :: i < j < |items| ==> items[j] == None
  }

  lemma {:induction false} LastSomeIsLast<T>(items: seq<Option<T>>, x: T)
    ensures LastSome(items) == Some(x) <==> exists i :: LastAt(items, i, x)
  {
    if items != [] {
      var last := |items| - 1;
      var init := items[..last];
      LastSomeIsLast(init, x);
      if items[last] == None && LastSome(init) == Some(x) {
        var i: nat :| LastAt(init, i, x);
        assert LastAt(items, i, x);
      }
      if items[last] == Some(x) {
        assert LastAt(items, last, x);
      }
      if i: nat :| LastAt(items, i, x) {
        assert i < last ==> LastAt(init, i, x);
      }
    }
  }

  lemma {:induction false} LastSomeJoined<T>(a: seq<Option<T>>, b: seq<Option<T>>)
    ensures LastSome(a + b) == if LastSome(b).Some? then LastSome(b) else LastSome(a)
  {
    if b == [] {
      assert a + b == a;
    } else {
      assert (a + b)[..|a + b| - 1] == a + b[..|b| - 1];
      LastSomeJoined(a, b[..|b| - 1]);
    }
  }

  lemma LastSomeLonger<T>(items: seq<Option<T>>, x: Option<T>)
    ensures LastSome(items + [x]) == if x.Some? then x else LastSome(items)
  {
    assert (items + [x])[..|items|] == items;
  }

  function EntryOrgs(entries: seq<string>): seq<Option<nat>> {
    if entries == [] then [] else EntryOrgs(entries[..|entries| - 1]) + [EntryOrg(entries[|entries| - 1])]
  }

  /** What each entry of a baggage header says. */
  function HeaderOrgs(value: string): seq<Option<nat>> {
    EntryOrgs(Split(value, ','))
  }

  /** `SentryBaggage`, of which only the organization is known. */
  class SentryBaggage {
    var orgId: Option<nat>

    constructor ()
      ensures orgId == None
    {
      orgId := None;
    }

    method UpdateFromHeader(value: string)
      modifies this
      ensures orgId == if LastSome(HeaderOrgs(value)).Some? then LastSome(HeaderOrgs(value)) else old(orgId)
    {
      hide EntryOrg, LastSome, Split;
      LastSomeOfNone();
      var entries := Split(value, ',');
      var i := 0;
      while i < |entries|
        invariant 0 <= i <= |entries|
        invariant var last := LastSome(EntryOrgs(entries[..i]));
                  orgId == if last.Some? then last else old(orgId)
      {
        assert entries[..i + 1][..i] == entries[..i];
        LastSomeLonger(EntryOrgs(entries[..i]), EntryOrg(entries[i]));
        UpdateFromEntry(entries[i]);
        i := i + 1;
      }
      assert entries[..|entries|] == entries;
    }

    lemma LastSomeOfNone()
      ensures LastSome<nat>([]) == None
    {}

    method UpdateFromEntry(entry: string)
      modifies this
      ensures orgId == if EntryOrg(entry).Some? then EntryOrg(entry) else old(orgId)
    {
      var pair := SplitOnce(entry, '=');
      if pair.Some? {
        var (key, rest) := pair.value;
        var cut := SplitOnce(rest, ';');
        var value := if cut.Some? then cut.value.0 else rest;
        UpdateFromValue(Trim(key), Trim(value));
      }
    }

    /** A known key with a valid value replaces the old one. */
    method UpdateFromValue(key: string, value: string)
      modifies this
      ensures orgId == if key == SENTRY_ORG_ID && ParseU64(value).Some? then ParseU64(value) else old(orgId)
    {
      if key == SENTRY_ORG_ID {
        var parsed := ParseU64(value);
        orgId := if parsed.Some? then parsed else orgId;
      }
    }
  }

  predicate IsTrace(h: Header) {
    EqIgnoreAsciiCase(h.0, SENTRY_TRACE)
  }

  predicate IsBaggage(h: Header) {
    EqIgnoreAsciiCase(h.0, BAGGAGE)
  }

  function TraceOf(h: Header): Option<Context> {
    if IsTrace(h) then FromSentryTrace(h.1) else None
  }

  /** The contexts read from the headers, in order; nothing for headers that are not a valid `sentry-trace`. */
  function Traces(headers: seq<Header>): (r: seq<Option<Context>>)
    ensures |r| == |headers|
  {
    if headers == [] then [] else
    var h := headers[|headers| - 1];
    Traces(headers[..|headers| - 1]) + [TraceOf(h)]
  }

  predicate AnyTrace(headers: seq<Header>) {
    exists i :: 0 <= i < |headers| && IsTrace(headers[i])
  }

  /** What all entries of all baggage headers say, in order. */
  function Orgs(headers: seq<Header>): seq<Option<nat>> {
    if headers == [] then [] else
    var h := headers[|headers| - 1];
    Orgs(headers[..|headers| - 1]) + if IsBaggage(h) then HeaderOrgs(h.1) else []
  }

  function Folded(headers: seq<Header>): Result<Context, HeaderParseError> {
    var last := LastSome(Traces(headers));
    if last.Some? then Ok(last.value) else if AnyTrace(headers) then Err(Invalid) else Err(Missing)
  }

  lemma NotBoth(h: Header)
    ensures !(IsTrace(h) && IsBaggage(h))
  {
    assert |Lower(SENTRY_TRACE)| == 12 && |Lower(BAGGAGE)| == 7;
  }

  /** One more header, as the loop folds it in. */
  function Next(before: Result<Context, HeaderParseError>, h: Header): Result<Context, HeaderParseError> {
    if !IsTrace(h) then before
    else match FromSentryTrace(h.1) {
      case Some(c) => Ok(c)
      case None => if before.Ok? then before else Err(Invalid)
    }
  }

  lemma FoldedLonger(headers: seq<Header>, h: Header)
    ensures Folded(headers + [h]) == Next(Folded(headers), h)
  {
    var more := headers + [h];
    assert more[..|headers|] == headers;
    hide IsTrace, FromSentryTrace;
    LastSomeLonger(Traces(headers), TraceOf(h));
    assert AnyTrace(more) == (AnyTrace(headers) || IsTrace(h)) by {
      if AnyTrace(headers) {
        var i :| 0 <= i < |headers| && IsTrace(headers[i]);
        assert IsTrace(more[i]);
      }
      assert more[|headers|] == h;
    }
  }

  lemma {:induction false} TraceAt(headers: seq<Header>, i: nat)
    requires i < |headers|
    ensures Traces(headers)[i] == TraceOf(headers[i])
  {
    hide TraceOf;
    if i < |headers| - 1 {
      TraceAt(headers[..|headers| - 1], i);
    }
  }

  lemma TracesAt(headers: seq<Header>)
    ensures forall i :: 0 <= i < |headers| ==> Traces(headers)[i] == TraceOf(headers[i])
  {
    hide TraceOf, Traces;
    forall i | 0 <= i < |headers|
      ensures Traces(headers)[i] == TraceOf(headers[i])
    {
      TraceAt(headers, i);
    }
  }

  /** This `sentry-trace` is read as the context, and no later one can be read. */
  predicate LastValid(headers: seq<Header>, i: nat, c: Context) {
    && i < |headers| && IsTrace(headers[i]) && FromSentryTrace(headers[i].1) == Some(c)
    && forall j :: i < j < |headers| && IsTrace(headers[j]) ==> FromSentryTrace(headers[j].1) == None
  }

  /** The fold accepts a context exactly when it is the last valid one. */
  lemma FoldedIsLastValid(headers: seq<Header>, c: Context)
    ensures Folded(headers) == Ok(c) <==> exists i :: LastValid(headers, i, c)
  {
    hide IsTrace, FromSentryTrace;
    TracesAt(headers);
    LastSomeIsLast(Traces(headers), c);
    if i: nat :| LastValid(headers, i, c) {
      assert LastAt(Traces(headers), i, c);
    }
    if Folded(headers) == Ok(c) {
      var i: nat :| LastAt(Traces(headers), i, c);
      assert LastValid(headers, i, c);
    }
  }

  /** Without a context, the error says whether there was a header that should have held one. */
  lemma FoldedErrors(headers: seq<Header>)
    ensures Folded(headers) == Err(Missing) <==> forall i :: 0 <= i < |headers| ==> !IsTrace(headers[i])
    ensures Folded(headers) == Err(Invalid)
            <==> && (exists i :: 0 <= i < |headers| && IsTrace(headers[i]))
                 && forall i :: 0 <= i < |headers| && IsTrace(headers[i]) ==> FromSentryTrace(headers[i].1) == None
  {
    hide IsTrace, FromSentryTrace;
    TracesAt(headers);
    var traces := Traces(headers);
    AnySome(traces);
    if LastSome(traces).Some? {
      var i :| 0 <= i < |traces| && traces[i].Some?;
      assert IsTrace(headers[i]);
    }
    forall i | 0 <= i < |headers| && IsTrace(headers[i]) && FromSentryTrace(headers[i].1) != None
      ensures LastSome(traces).Some?
    {
      assert traces[i].Some?;
    }
  }

  lemma {:induction false} AnySome<T>(items: seq<Option<T>>)
    ensures LastSome(items).Some? <==> exists i :: 0 <= i < |items| && items[i].Some?
  {
    if items != [] && items[|items| - 1] == None {
      AnySome(items[..|items| - 1]);
    }
  }

  /** The entries of all baggage headers, in order. */
  function Entries(headers: seq<Header>): seq<string> {
    if headers == [] then [] else
    var h := headers[|headers| - 1];
    Entries(headers[..|headers| - 1]) + if IsBaggage(h) then Split(h.1, ',') else []
  }

  /** This entry names the organization, and none after it names any. */
  predicate NamesLast(entries: seq<string>, i: nat, org: nat) {
    && i < |entries| && EntryOrg(entries[i]) == Some(org)
    && forall j :: i < j < |entries| ==> EntryOrg(entries[j]) == None
  }

  lemma {:induction false} EntryOrgsAt(entries: seq<string>)
    ensures |EntryOrgs(entries)| == |entries|
    ensures forall j :: 0 <= j < |entries| ==> EntryOrgs(entries)[j] == EntryOrg(entries[j])
  {
    hide EntryOrg;
    if entries != [] {
      EntryOrgsAt(entries[..|entries| - 1]);
    }
  }

  lemma {:induction false} OrgsOfEntries(headers: seq<Header>)
    ensures |Orgs(headers)| == |Entries(headers)|
    ensures forall j :: 0 <= j < |Entries(headers)| ==> Orgs(headers)[j] == EntryOrg(Entries(headers)[j])
  {
    hide IsBaggage, EntryOrg, Split;
    if headers != [] {
      OrgsOfEntries(headers[..|headers| - 1]);
      EntryOrgsAt(Split(headers[|headers| - 1].1, ','));
    }
  }

  /** The organization of some headers is the one that is named last, whichever header names it. */
  lemma OrgIsNamedLast(headers: seq<Header>, org: nat)
    ensures LastSome(Orgs(headers)) == Some(org) <==> exists i: nat :: NamesLast(Entries(headers), i, org)
  {
    hide EntryOrg, Orgs, Entries, LastSome;
    OrgsOfEntries(headers);
    LastSomeIsLast(Orgs(headers), org);
    if i: nat :| LastAt(Orgs(headers), i, org) {
      assert NamesLast(Entries(headers), i, org);
    }
    if i: nat :| NamesLast(Entries(headers), i, org) {
      assert LastAt(Orgs(headers), i, org);
    }
  }

  lemma OrgsLonger(headers: seq<Header>, h: Header)
    ensures var last := if IsBaggage(h) then LastSome(HeaderOrgs(h.1)) else None;
            LastSome(Orgs(headers + [h])) == if last.Some? then last else LastSome(Orgs(headers))
  {
    hide IsBaggage, HeaderOrgs, LastSome;
    assert (headers + [h])[..|headers|] == headers;
    if IsBaggage(h) {
      LastSomeJoined(Orgs(headers), HeaderOrgs(h.1));
    } else {
      assert Orgs(headers) + [] == Orgs(headers);
    }
  }

  lemma FoldedEmpty()
    ensures Folded([]) == Err(Missing) && LastSome(Orgs([])) == None
  {}

  /**
   The last valid `sentry-trace` with the last valid organization of any baggage header; invalid when
   there are such headers but none can be read, missing when there are none.
   */
  method TryFromHeaders(headers: seq<Header>) returns (r: Result<Context, HeaderParseError>)
    ensures Folded(headers).Ok? ==> r == Ok(Folded(headers).value.(orgId := LastSome(Orgs(headers))))
    ensures Folded(headers).Err? ==> r == Folded(headers)
  {
    FoldedEmpty();
    hide Folded, HeaderOrgs, FromSentryTrace, IsTrace, IsBaggage, Orgs, LastSome;
    var result: Result<Context, HeaderParseError> := Err(Missing);
    var baggage := new SentryBaggage();
    var i := 0;
    while i < |headers|
      invariant 0 <= i <= |headers|
      invariant result == Folded(headers[..i])
      invariant baggage.orgId == LastSome(Orgs(headers[..i]))
    {
      var h := headers[i];
      assert headers[..i + 1] == headers[..i] + [h];
      FoldedLonger(headers[..i], h);
      OrgsLonger(headers[..i], h);
      NotBoth(h);
      if IsTrace(h) {
        var context := FromSentryTrace(h.1);
        result := if context.Some? then Ok(context.value) else if result.Ok? then result else Err(Invalid);
      } else if IsBaggage(h) {
        baggage.UpdateFromHeader(h.1);
      }
      i := i + 1;
    }
    assert headers[..|headers|] == headers;
    r := match result case Err(e) => Err(e) case Ok(context) => Ok(context.(orgId := baggage.orgId));
  }

  predicate AllWhitespace(s: string) {
    forall i :: 0 <= i < |s| ==> IsWhitespace(s[i])
  }

  /** A list member of a baggage header: a key, a value and properties, with optional white space. */
  function Member(pads: (string, string, string, string), key: string, value: string, properties: string): string {
    pads.0 + key + pads.1 + "=" + (pads.2 + value + pads.3 + properties)
  }

  /** Text a key or a value may be: not empty, no white space at its ends, and no separators. */
  predicate Token(s: string) {
    s != "" && !IsWhitespace(s[0]) && !IsWhitespace(s[|s| - 1]) && '=' !in s && ';' !in s && ',' !in s
  }

  lemma NoSeparatorInWhitespace(s: string)
    requires AllWhitespace(s)
    ensures '=' !in s && ';' !in s && ',' !in s
  {
    assert !IsWhitespace('=') && !IsWhitespace(';') && !IsWhitespace(',');
  }

  lemma MemberSplits(pads: (string, string, string, string), key: string, value: string, properties: string)
    requires AllWhitespace(pads.0) && AllWhitespace(pads.1) && AllWhitespace(pads.2) && AllWhitespace(pads.3)
    requires Token(key) && Token(value) && (properties != "" ==> properties[0] == ';')
    ensures var value' := pads.2 + value + pads.3;
            && SplitOnce(Member(pads, key, value, properties), '=')
               == Some((pads.0 + key + pads.1, value' + properties))
            && SplitOnce(value' + properties, ';') == if properties == "" then None else Some((value', properties[1..]))
  {
    hide AllWhitespace, SplitOnce;
    NoSeparatorInWhitespace(pads.0);
    NoSeparatorInWhitespace(pads.1);
    NoSeparatorInWhitespace(pads.2);
    NoSeparatorInWhitespace(pads.3);
    var left, middle := pads.0 + key + pads.1, pads.2 + value + pads.3;
    SplitAt(left, '=', middle + properties);
    if properties == "" {
      NoSplit(middle + properties, ';');
    } else {
      assert middle + properties == middle + ";" + properties[1..];
      SplitAt(middle, ';', properties[1..]);
    }
  }

  lemma NoSplit(s: string, c: char)
    requires c !in s
    ensures SplitOnce(s, c) == None
  {
    FindFirst(s, c, |s|);
  }

  /** A member that follows the grammar says what its value says, and only under the known key. */
  lemma MemberOrg(pads: (string, string, string, string), key: string, value: string, properties: string)
    requires AllWhitespace(pads.0) && AllWhitespace(pads.1) && AllWhitespace(pads.2) && AllWhitespace(pads.3)
    requires Token(key) && Token(value) && (properties != "" ==> properties[0] == ';')
    ensures EntryOrg(Member(pads, key, value, properties))
            == if key == SENTRY_ORG_ID then ParseU64(value) else None
  {
    hide SplitOnce, Trim, IsWhitespace, ParseU64, Member;
    MemberSplits(pads, key, value, properties);
    TrimPadded(pads.0, key, pads.1);
    TrimPadded(pads.2, value, pads.3);
    assert properties == "" ==> pads.2 + value + pads.3 + properties == pads.2 + value + pads.3;
  }

  lemma SplitAt(left: string, c: char, right: string)
    requires c !in left
    ensures SplitOnce(left + [c] + right, c) == Some((left, right))
  {
    var s := left + [c] + right;
    assert s[..|left|] == left && s[|left| + 1..] == right;
    FindFirst(s, c, |left|);
  }

  /** So do the members of a whole header. */
  lemma MembersOrgs(members: seq<string>)
    requires members != [] && forall i :: 0 <= i < |members| ==> ',' !in members[i]
    ensures HeaderOrgs(Join(members, ',')) == EntryOrgs(members)
  {
    SplitJoined(members, ',');
  }
}
