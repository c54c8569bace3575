/** The breadcrumb trail of a scope: a queue trimmed to the client's limit. */
module Breadcrumbs {
  import opened Wrappers

  /** The client's options: a limit, and a callback that may change or reject a breadcrumb. */
  datatype Options<!B> = Options(maxBreadcrumbs: nat, beforeBreadcrumb: Option<B -> Option<B>>)

  function Filtered<B>(options: Options<B>, b: B): Option<B> {
    if options.beforeBreadcrumb.Some? then options.beforeBreadcrumb.value(b) else Some(b)
  }

  /** What the callback lets through, in order. */
  function Accepted<B>(options: Options<B>, offered: seq<B>): seq<B> {
    if offered == [] then [] else
    var last := |offered| - 1;
    Accepted(options, offered[..last])
    + if Filtered(options, offered[last]).Some? then [Filtered(options, offered[last]).value] else []
  }

  /** What a callback makes of some items, without those it rejects. */
  function LetThrough<B>(callback: B -> Option<B>, offered: seq<B>): seq<B> {
    if offered == [] then []
    else match callback(offered[0])
         case Some(b) => [b] + LetThrough(callback, offered[1..])
         case None => LetThrough(callback, offered[1..])
  }

  lemma {:induction false} LetThroughLonger<B>(callback: B -> Option<B>, offered: seq<B>, last: B)
    ensures LetThrough(callback, offered + [last])
            == LetThrough(callback, offered) + match callback(last) { case Some(b) => [b] case None => [] }
  {
    if offered == [] {
      assert [] + [last] == [last] && [last][1..] == [];
    } else {
      assert (offered + [last])[1..] == offered[1..] + [last];
      LetThroughLonger(callback, offered[1..], last);
    }
  }

  /** Without a callback everything is accepted as it is, and with one exactly what it makes of what it lets through. */
  lemma {:induction false} AcceptedIsWhatPasses<B>(options: Options<B>, offered: seq<B>)
    ensures options.beforeBreadcrumb.None? ==> Accepted(options, offered) == offered
    ensures options.beforeBreadcrumb.Some? ==>
              Accepted(options, offered) == LetThrough(options.beforeBreadcrumb.value, offered)
  {
    if offered != [] {
      var init, last := offered[..|offered| - 1], offered[|offered| - 1];
      AcceptedIsWhatPasses(options, init);
      assert init + [last] == offered;
      if options.beforeBreadcrumb.Some? {
        LetThroughLonger(options.beforeBreadcrumb.value, init, last);
      }
    }
  }

  /** The last `n` items, or all of them. */
  function Last<B>(n: nat, s: seq<B>): (r: seq<B>)
    ensures |r| == (if |s| < n then |s| else n) && r == s[|s| - |r|..]
  {
    if |s| <= n then s else s[|s| - n..]
  }

  /** The trail after one call that offers some breadcrumbs; offering none does not even trim it. */
  function Trail<B>(options: Options<B>, before: seq<B>, offered: seq<B>): seq<B> {
    if offered == [] then before
    else Last(options.maxBreadcrumbs, before + Accepted(options, offered))
  }

  lemma LastOfLonger<B>(n: nat, s: seq<B>, t: seq<B>)
    ensures Last(n, Last(n, s) + t) == Last(n, s + t)
  {
    if |s| > n {
      assert s + t == s[..|s| - n] + (Last(n, s) + t);
    }
  }

  lemma OneMore<B>(options: Options<B>, before: seq<B>, offered: seq<B>, i: nat)
    requires i < |offered|
    ensures var breadcrumb, trail := Filtered(options, offered[i]), Trail(options, before, offered[..i]);
            Trail(options, before, offered[..i + 1])
            == Last(options.maxBreadcrumbs, if breadcrumb.Some? then trail + [breadcrumb.value] else trail)
  {
    var breadcrumb, accepted := Filtered(options, offered[i]), Accepted(options, offered[..i]);
    var new_ := if breadcrumb.Some? then [breadcrumb.value] else [];
    assert offered[..i + 1][..i] == offered[..i];
    assert (before + accepted) + new_ == before + Accepted(options, offered[..i + 1]);
    if i > 0 {
      LastOfLonger(options.maxBreadcrumbs, before + accepted, new_);
    } else {
      assert before + accepted == before;
    }
    assert breadcrumb.None? ==> Trail(options, before, offered[..i]) + new_ == Trail(options, before, offered[..i]);
  }

  /** The inner loop: takes breadcrumbs off the front while there are too many. */
  method TrimFront<B>(full: seq<B>, max: nat) returns (breadcrumbs: seq<B>)
    ensures breadcrumbs == Last(max, full)
  {
    breadcrumbs := full;
    while |breadcrumbs| > max
      invariant |breadcrumbs| <= |full| && breadcrumbs == full[|full| - |breadcrumbs|..]
      invariant |breadcrumbs| < |full| ==> |breadcrumbs| >= max
    {
      breadcrumbs := breadcrumbs[1..];
    }
  }

  /** Pushes what the callback accepts and trims the front after every breadcrumb, accepted or not. */
  method AddBreadcrumbs<B>(options: Options<B>, before: seq<B>, offered: seq<B>) returns (breadcrumbs: seq<B>)
    ensures breadcrumbs == Trail(options, before, offered)
  {
    hide Accepted, Filtered, Last;
    breadcrumbs := before;
    var i := 0;
    while i < |offered|
      invariant 0 <= i <= |offered|
      invariant breadcrumbs == Trail(options, before, offered[..i])
    {
      var breadcrumb := Filtered(options, offered[i]);
      OneMore(options, before, offered, i);
      if breadcrumb.Some? {
        breadcrumbs := breadcrumbs + [breadcrumb.value];
      }
      breadcrumbs := TrimFront(breadcrumbs, options.maxBreadcrumbs);
      i := i + 1;
    }
    assert offered[..|offered|] == offered;
  }

  /** The trail after any number of calls. */
  function TrailAfter<B>(options: Options<B>, before: seq<B>, calls: seq<seq<B>>): seq<B> {
    if calls == [] then before else
    Trail(options, TrailAfter(options, before, calls[..|calls| - 1]), calls[|calls| - 1])
  }

  function AllAccepted<B>(options: Options<B>, calls: seq<seq<B>>): seq<B> {
    if calls == [] then [] else
    AllAccepted(options, calls[..|calls| - 1]) + Accepted(options, calls[|calls| - 1])
  }

  predicate NothingOffered<B>(calls: seq<seq<B>>) {
    forall i :: 0 <= i < |calls| ==> calls[i] == []
  }

  /**
   Trimming per breadcrumb is trimming once: after any calls the trail is the last `maxBreadcrumbs` of
   everything accepted.
   */
  lemma {:induction false} TrailIsTheLastAccepted<B>(options: Options<B>, before: seq<B>, calls: seq<seq<B>>)
    requires !NothingOffered(calls) || |before| <= options.maxBreadcrumbs
    ensures TrailAfter(options, before, calls)
            == Last(options.maxBreadcrumbs, before + AllAccepted(options, calls))
  {
    var n := options.maxBreadcrumbs;
    if calls == [] {
      assert before + AllAccepted(options, calls) == before;
    } else {
      var init, last := calls[..|calls| - 1], calls[|calls| - 1];
      var all, new_ := AllAccepted(options, init), Accepted(options, last);
      assert (before + all) + new_ == before + (all + new_);
      if !NothingOffered(init) || |before| <= n {
        TrailIsTheLastAccepted(options, before, init);
        LastOfLonger(n, before + all, new_);
        if last == [] {
          assert Last(n, before + all) + new_ == Last(n, before + all);
        }
      } else {
        NothingOfferedNothingChanges(options, before, init);
        assert before + all == before;
      }
    }
  }

  lemma {:induction false} NothingOfferedNothingChanges<B>(options: Options<B>, before: seq<B>, calls: seq<seq<B>>)
    requires NothingOffered(calls)
    ensures TrailAfter(options, before, calls) == before && AllAccepted(options, calls) == []
  {
    if calls != [] {
      NothingOfferedNothingChanges(options, before, calls[..|calls| - 1]);
    }
  }

  /** And exactly then: an over-long trail survives calls that offer nothing. */
  lemma TrailIsTheLastAcceptedIff<B>(options: Options<B>, before: seq<B>, calls: seq<seq<B>>)
    ensures TrailAfter(options, before, calls)
            == Last(options.maxBreadcrumbs, before + AllAccepted(options, calls))
            <==> !NothingOffered(calls) || |before| <= options.maxBreadcrumbs
  {
    if !NothingOffered(calls) || |before| <= options.maxBreadcrumbs {
      TrailIsTheLastAccepted(options, before, calls);
    } else {
      NothingOfferedNothingChanges(options, before, calls);
      assert before + AllAccepted(options, calls) == before;
    }
  }
}
