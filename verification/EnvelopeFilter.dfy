/** What filtering an envelope keeps, what it reports, and in which order. */
module EnvelopeFiltering {
  import opened Wrappers
  import opened Envelopes

  /** The items whose mark is set, in order. */
  function Chosen<T>(items: seq<T>, marks: seq<bool>): seq<T>
    requires |items| == |marks|
    decreases |items|
  {
    if items == [] then [] else
    var n := |items| - 1;
    Chosen(items[..n], marks[..n]) + if marks[n] then [items[n]] else []
  }

  function Negated(marks: seq<bool>): (r: seq<bool>)
    ensures |r| == |marks|
  {
    seq(|marks|, i requires 0 <= i < |marks| => !marks[i])
  }

  /** A call of one of the filter's callbacks. */
  datatype Callback = Asked(item: Item) | Removed(item: Item)

  /** The filter's state after some callbacks. */
  function Replay<S>(filter: ItemFilter<S>, state: S, calls: seq<Callback>): S
    decreases |calls|
  {
    if calls == [] then state else
    var n := |calls| - 1;
    var before := Replay(filter, state, calls[..n]);
    match calls[n]
    case Asked(item) => filter.keep(before, item).1
    case Removed(item) => filter.onFiltered(before, item)
  }

  /** The filter is asked about every item in turn, and told at once of each it does not let through. */
  function FirstCalls(items: seq<Item>, marks: seq<bool>): seq<Callback>
    requires |items| == |marks|
    decreases |items|
  {
    if items == [] then [] else
    var n := |items| - 1;
    FirstCalls(items[..n], marks[..n]) + [Asked(items[n])] + if marks[n] then [] else [Removed(items[n])]
  }

  /** What the filter answers for each item, the callbacks before having been made. */
  function Decisions<S>(filter: ItemFilter<S>, state: S, items: seq<Item>): (marks: seq<bool>)
    ensures |marks| == |items|
    decreases |items|
  {
    if items == [] then [] else
    var n := |items| - 1;
    var marks := Decisions(filter, state, items[..n]);
    marks + [filter.keep(Replay(filter, state, FirstCalls(items[..n], marks)), items[n]).0]
  }

  /** Some item that lends an id was let through. */
  ghost predicate KeepsEvent(items: seq<Item>, marks: seq<bool>)
    requires |items| == |marks|
  {
    exists i :: 0 <= i < |items| && marks[i] && exists id :: Carries(items[i], id)
  }

  /** An item stays when it was let through and, if it is an attachment, an event or transaction was too. */
  ghost function Stays(items: seq<Item>, marks: seq<bool>): (r: seq<bool>)
    requires |items| == |marks|
    ensures |r| == |items|
  {
    seq(|items|, i requires 0 <= i < |items| => marks[i] && (items[i].Attached? ==> KeepsEvent(items, marks)))
  }

  lemma {:induction false} PartitionBy<T>(items: seq<T>, marks: seq<bool>, others: seq<bool>)
    requires |items| == |marks| == |others| && forall i :: 0 <= i < |marks| ==> others[i] == !marks[i]
    ensures multiset(Chosen(items, marks)) + multiset(Chosen(items, others)) == multiset(items)
  {
    if items != [] {
      var n := |items| - 1;
      var kept, rest := Chosen(items[..n], marks[..n]), Chosen(items[..n], others[..n]);
      assert Chosen(items, marks) == if marks[n] then kept + [items[n]] else kept;
      assert Chosen(items, others) == if marks[n] then rest else rest + [items[n]];
      PartitionBy(items[..n], marks[..n], others[..n]);
      hide Chosen;
      PartitionLonger(kept, rest, items[..n], items[n]);
      assert items == items[..n] + [items[n]];
    }
  }

  lemma ChosenPartition<T>(items: seq<T>, marks: seq<bool>)
    requires |items| == |marks|
    ensures multiset(Chosen(items, marks)) + multiset(Chosen(items, Negated(marks))) == multiset(items)
  {
    PartitionBy(items, marks, Negated(marks));
  }

  lemma PartitionLonger<T>(a: seq<T>, b: seq<T>, whole: seq<T>, x: T)
    requires multiset(a) + multiset(b) == multiset(whole)
    ensures multiset(a + [x]) + multiset(b) == multiset(whole + [x]) == multiset(a) + multiset(b + [x])
  {}

  /** The positions from which the chosen items come. */
  function Positions(marks: seq<bool>): seq<nat>
    decreases |marks|
  {
    if marks == [] then [] else
    var n := |marks| - 1;
    Positions(marks[..n]) + if marks[n] then [n] else []
  }

  ghost predicate InOrderSubsequence<T>(part: seq<T>, whole: seq<T>) {
    exists at: seq<nat> ::
      && |at| == |part|
      && (forall i :: 0 <= i < |at| ==> at[i] < |whole| && part[i] == whole[at[i]])
      && (forall i, k :: 0 <= i < k < |at| ==> at[i] < at[k])
  }

  lemma {:induction false} ChosenPositions<T>(items: seq<T>, marks: seq<bool>)
    requires |items| == |marks|
    ensures |Positions(marks)| == |Chosen(items, marks)|
    ensures forall i :: 0 <= i < |Positions(marks)| ==>
              Positions(marks)[i] < |items| && Chosen(items, marks)[i] == items[Positions(marks)[i]]
    ensures forall i, k :: 0 <= i < k < |Positions(marks)| ==> Positions(marks)[i] < Positions(marks)[k]
  {
    if items != [] {
      var n := |items| - 1;
      ChosenPositions(items[..n], marks[..n]);
    }
  }

  lemma ReplayOneMore<S>(filter: ItemFilter<S>, state: S, calls: seq<Callback>, call: Callback)
    ensures Replay(filter, state, calls + [call])
            == if call.Asked? then filter.keep(Replay(filter, state, calls), call.item).1
               else filter.onFiltered(Replay(filter, state, calls), call.item)
  {
    assert (calls + [call])[..|calls|] == calls;
  }

  lemma {:induction false} FirstPassChooses<S>(filter: ItemFilter<S>, state: S, items: seq<Item>)
    ensures var pass, marks := FirstPass(filter, state, items), Decisions(filter, state, items);
            && pass.kept == Chosen(items, marks)
            && pass.reported == Chosen(items, Negated(marks))
            && pass.state == Replay(filter, state, FirstCalls(items, marks))
  {
    if items != [] {
      var n := |items| - 1;
      var marks := Decisions(filter, state, items);
      FirstPassChooses(filter, state, items[..n]);
      assert marks[..n] == Decisions(filter, state, items[..n]);
      assert Negated(marks)[..n] == Negated(marks[..n]);
      var calls := FirstCalls(items[..n], marks[..n]);
      hide Replay;
      ReplayOneMore(filter, state, calls, Asked(items[n]));
      ReplayOneMore(filter, state, calls + [Asked(items[n])], Removed(items[n]));
      assert calls + [Asked(items[n])] + [] == calls + [Asked(items[n])];
    }
  }

  lemma {:induction false} SecondPassChooses<S>(filter: ItemFilter<S>, state: S, items: seq<Item>, marks: seq<bool>)
    requires |items| == |marks|
    requires forall i :: 0 <= i < |items| ==> marks[i] == !items[i].Attached?
    ensures SecondPass(filter, state, items).kept == Chosen(items, marks)
    ensures SecondPass(filter, state, items).reported == Chosen(items, Negated(marks))
  {
    if items != [] {
      var n := |items| - 1;
      SecondPassChooses(filter, state, items[..n], marks[..n]);
      assert Negated(marks)[..n] == Negated(marks[..n]);
    }
  }

  /** Choosing twice is choosing once by both marks. */
  lemma {:induction false} ChosenTwice(items: seq<Item>, first: seq<bool>, both: seq<bool>, second: seq<bool>)
    requires |items| == |first| == |both|
    requires |second| == |Chosen(items, first)|
    requires forall i :: 0 <= i < |second| ==> second[i] == !Chosen(items, first)[i].Attached?
    requires forall i :: 0 <= i < |items| ==> both[i] == (first[i] && !items[i].Attached?)
    ensures Chosen(Chosen(items, first), second) == Chosen(items, both)
  {
    if items != [] {
      var n := |items| - 1;
      var front := Chosen(items[..n], first[..n]);
      if first[n] {
        assert Chosen(items, first)[..|front|] == front;
        ChosenTwice(items[..n], first[..n], both[..n], second[..|front|]);
      } else {
        assert Chosen(items, first) == front;
        ChosenTwice(items[..n], first[..n], both[..n], second);
      }
    }
  }

  lemma LendsIffCarries(item: Item)
    ensures EventIdOf(item).Some? <==> exists id :: Carries(item, id)
  {
    if EventIdOf(item).Some? {
      CarriesIsEventId(item, EventIdOf(item).value);
    }
    if id :| Carries(item, id) {
      CarriesIsEventId(item, id);
    }
  }

  lemma KeepsEventMeansAnId(items: seq<Item>, marks: seq<bool>)
    requires |items| == |marks|
    ensures KeepsEvent(items, marks) <==> FirstEventId(Chosen(items, marks)).Some?
  {
    NoFirstEventId(Chosen(items, marks));
    ChosenPositions(items, marks);
    forall item: Item ensures EventIdOf(item).Some? <==> exists id :: Carries(item, id) {
      LendsIffCarries(item);
    }
    hide Carries;
    if KeepsEvent(items, marks) {
      var i :| 0 <= i < |items| && marks[i] && EventIdOf(items[i]).Some?;
      ChosenHolds(items, marks, i);
    }
    if FirstEventId(Chosen(items, marks)).Some? {
      var k :| 0 <= k < |Chosen(items, marks)| && EventIdOf(Chosen(items, marks)[k]).Some?;
      PositionIsMarked(marks, k);
    }
  }

  lemma {:induction false} ChosenHolds<T>(items: seq<T>, marks: seq<bool>, i: nat)
    requires |items| == |marks| && i < |items| && marks[i]
    ensures items[i] in Chosen(items, marks)
  {
    var n := |items| - 1;
    if i < n {
      ChosenHolds(items[..n], marks[..n], i);
    }
  }

  lemma {:induction false} PositionIsMarked(marks: seq<bool>, k: nat)
    requires k < |Positions(marks)|
    ensures Positions(marks)[k] < |marks| && marks[Positions(marks)[k]]
  {
    var n := |marks| - 1;
    if k < |Positions(marks[..n])| {
      PositionIsMarked(marks[..n], k);
    }
  }

  /** Filtering keeps exactly the items that stay: by the filter's decisions, minus orphaned attachments. */
  lemma KeptAreThoseThatStay<S>(filter: ItemFilter<S>, state: S, items: seq<Item>)
    ensures BothPasses(filter, state, items).kept
            == Chosen(items, Stays(items, Decisions(filter, state, items)))
  {
    var marks := Decisions(filter, state, items);
    FirstPassChooses(filter, state, items);
    KeepsEventMeansAnId(items, marks);
    if KeepsEvent(items, marks) {
      assert Stays(items, marks) == marks;
    } else {
      var first := FirstPass(filter, state, items);
      var second := seq(|first.kept|, i requires 0 <= i < |first.kept| => !first.kept[i].Attached?);
      SecondPassChooses(filter, first.state, first.kept, second);
      ChosenTwice(items, marks, Stays(items, marks), second);
    }
  }

  /** Every item is either kept or reported, once for each time it was there, and kept items keep their order. */
  lemma FilterConserves<S>(filter: ItemFilter<S>, state: S, items: seq<Item>)
    ensures var pass := BothPasses(filter, state, items);
            && multiset(pass.kept) + multiset(pass.reported) == multiset(items)
            && InOrderSubsequence(pass.kept, items)
  {
    hide FirstPass, SecondPass, Chosen, Negated;
    var marks := Decisions(filter, state, items);
    var first := FirstPass(filter, state, items);
    FirstPassChooses(filter, state, items);
    ChosenPartition(items, marks);
    KeptAreThoseThatStay(filter, state, items);
    ChosenPositions(items, Stays(items, marks));
    if FirstEventId(first.kept).None? {
      var second := seq(|first.kept|, i requires 0 <= i < |first.kept| => !first.kept[i].Attached?);
      SecondPassChooses(filter, first.state, first.kept, second);
      ChosenPartition(first.kept, second);
    }
  }

  /** An attachment survives only beside a surviving event or transaction, whose id the result then carries. */
  lemma AttachmentsNeedAnEvent<S>(filter: ItemFilter<S>, state: S, items: seq<Item>)
    ensures var kept := BothPasses(filter, state, items).kept;
            (exists item :: item in kept && item.Attached?) ==>
              exists i: nat, id ::
                CarriesFirst(kept, i, id) && FilteredValue(kept).headers == NO_HEADERS.(eventId := Some(id))
  {
    var first := FirstPass(filter, state, items);
    var kept := BothPasses(filter, state, items).kept;
    if FirstEventId(first.kept).Some? {
      var id := FirstEventId(kept).value;
      FirstEventIdIsFirstCarried(kept, id);
      var i: nat :| CarriesFirst(kept, i, id);
      assert FilteredValue(kept).headers == NO_HEADERS.(eventId := Some(id));
    } else {
      var second := seq(|first.kept|, i requires 0 <= i < |first.kept| => !first.kept[i].Attached?);
      SecondPassChooses(filter, first.state, first.kept, second);
      ChosenPositions(first.kept, second);
      forall k | 0 <= k < |kept| ensures !kept[k].Attached? {
        PositionIsMarked(second, k);
      }
    }
  }

  // ----- the callbacks

  function RemovedOf(items: seq<Item>): (calls: seq<Callback>)
    ensures |calls| == |items|
    decreases |items|
  {
    if items == [] then [] else RemovedOf(items[..|items| - 1]) + [Removed(items[|items| - 1])]
  }

  /** The items the filter was told about. */
  function TellsOf(calls: seq<Callback>): seq<Item>
    decreases |calls|
  {
    if calls == [] then [] else
    var n := |calls| - 1;
    TellsOf(calls[..n]) + if calls[n].Removed? then [calls[n].item] else []
  }

  /** The attachments among the items with a mark. */
  function Attachments(items: seq<Item>, marks: seq<bool>): seq<Item>
    requires |items| == |marks|
  {
    Chosen(items, seq(|items|, i requires 0 <= i < |items| => marks[i] && items[i].Attached?))
  }

  /** All callbacks of a filtering: those of the first pass, and then one for each orphaned attachment. */
  ghost function Callbacks(items: seq<Item>, marks: seq<bool>): seq<Callback>
    requires |items| == |marks|
  {
    FirstCalls(items, marks) + if KeepsEvent(items, marks) then [] else RemovedOf(Attachments(items, marks))
  }

  lemma {:induction false} ReplayRemoved<S>(filter: ItemFilter<S>, state: S, items: seq<Item>, calls: seq<Callback>)
    requires calls == RemovedOf(SecondPass(filter, state, items).reported)
    ensures SecondPass(filter, state, items).state == Replay(filter, state, calls)
  {
    if items != [] {
      var n := |items| - 1;
      var before := SecondPass(filter, state, items[..n]);
      ReplayRemoved(filter, state, items[..n], RemovedOf(before.reported));
      if items[n].Attached? {
        assert (before.reported + [items[n]])[..|before.reported|] == before.reported;
        hide Replay;
        ReplayOneMore(filter, state, RemovedOf(before.reported), Removed(items[n]));
      }
    }
  }

  lemma {:induction false} ReplayJoined<S>(filter: ItemFilter<S>, state: S, a: seq<Callback>, b: seq<Callback>)
    ensures Replay(filter, state, a + b) == Replay(filter, Replay(filter, state, a), b)
  {
    if b == [] {
      assert a + b == a;
    } else {
      var n := |b| - 1;
      ReplayJoined(filter, state, a, b[..n]);
      assert (a + b)[..|a| + n] == a + b[..n];
    }
  }

  lemma {:induction false} TellsJoined(a: seq<Callback>, b: seq<Callback>)
    ensures TellsOf(a + b) == TellsOf(a) + TellsOf(b)
  {
    if b == [] {
      assert a + b == a;
    } else {
      var n := |b| - 1;
      TellsJoined(a, b[..n]);
      assert (a + b)[..|a| + n] == a + b[..n];
    }
  }

  lemma {:induction false} TellsOfRemoved(items: seq<Item>)
    ensures TellsOf(RemovedOf(items)) == items
  {
    if items != [] {
      TellsOfRemoved(items[..|items| - 1]);
      assert RemovedOf(items)[..|items| - 1] == RemovedOf(items[..|items| - 1]);
    }
  }

  lemma {:induction false} TellsOfFirst(items: seq<Item>, marks: seq<bool>)
    requires |items| == |marks|
    ensures TellsOf(FirstCalls(items, marks)) == Chosen(items, Negated(marks))
  {
    if items != [] {
      var n := |items| - 1;
      TellsOfFirst(items[..n], marks[..n]);
      assert Negated(marks)[..n] == Negated(marks[..n]);
      var last := [Asked(items[n])] + if marks[n] then [] else [Removed(items[n])];
      assert FirstCalls(items, marks) == FirstCalls(items[..n], marks[..n]) + last;
      TellsJoined(FirstCalls(items[..n], marks[..n]), last);
      assert TellsOf(last) == if marks[n] then [] else [items[n]];
    }
  }

  /** Choosing twice, with the attachments in the second choice. */
  lemma {:induction false} AttachmentsAmongChosen(
      items: seq<Item>, first: seq<bool>, both: seq<bool>, second: seq<bool>)
    requires |items| == |first| == |both|
    requires |second| == |Chosen(items, first)|
    requires forall i :: 0 <= i < |second| ==> second[i] == Chosen(items, first)[i].Attached?
    requires forall i :: 0 <= i < |items| ==> both[i] == (first[i] && items[i].Attached?)
    ensures Chosen(Chosen(items, first), second) == Chosen(items, both)
  {
    if items != [] {
      var n := |items| - 1;
      var front := Chosen(items[..n], first[..n]);
      if first[n] {
        assert Chosen(items, first)[..|front|] == front;
        AttachmentsAmongChosen(items[..n], first[..n], both[..n], second[..|front|]);
      } else {
        assert Chosen(items, first) == front;
        AttachmentsAmongChosen(items[..n], first[..n], both[..n], second);
      }
    }
  }

  /** The second pass tells of the attachments that the first let through. */
  lemma OrphansAreTold<S>(filter: ItemFilter<S>, state: S, items: seq<Item>, marks: seq<bool>)
    requires |items| == |marks|
    ensures SecondPass(filter, state, Chosen(items, marks)).reported == Attachments(items, marks)
  {
    var kept := Chosen(items, marks);
    var second := seq(|kept|, i requires 0 <= i < |kept| => !kept[i].Attached?);
    SecondPassChooses(filter, state, kept, second);
    AttachmentsAmongChosen(items, marks,
      seq(|items|, i requires 0 <= i < |items| => marks[i] && items[i].Attached?), Negated(second));
  }

  /**
   The filter is asked about every item, told of each item it rejects right away, and at the end told of each
   attachment removed with them; nothing else touches its state, and what it is told is what is reported.
   */
  lemma FilterCallsBack<S>(filter: ItemFilter<S>, state: S, items: seq<Item>)
    ensures var pass, marks := BothPasses(filter, state, items), Decisions(filter, state, items);
            && pass.state == Replay(filter, state, Callbacks(items, marks))
            && pass.reported == TellsOf(Callbacks(items, marks))
  {
    var marks := Decisions(filter, state, items);
    var first := FirstPass(filter, state, items);
    var calls := FirstCalls(items, marks);
    FirstPassChooses(filter, state, items);
    KeepsEventMeansAnId(items, marks);
    TellsOfFirst(items, marks);
    hide FirstPass, SecondPass, Chosen, Negated, Decisions, Replay, TellsOf, FirstCalls, KeepsEvent;
    if KeepsEvent(items, marks) {
      assert calls + [] == calls;
    } else {
      var orphans := Attachments(items, marks);
      OrphansAreTold(filter, first.state, items, marks);
      ReplayRemoved(filter, first.state, first.kept, RemovedOf(orphans));
      ReplayJoined(filter, state, calls, RemovedOf(orphans));
      TellsJoined(calls, RemovedOf(orphans));
      TellsOfRemoved(orphans);
    }
  }

  lemma {:induction false} ReplayOfALog(filter: ItemFilter<seq<Item>>, log: seq<Item>, calls: seq<Callback>)
    requires forall log, item :: filter.keep(log, item).1 == log && filter.onFiltered(log, item) == log + [item]
    ensures Replay(filter, log, calls) == log + TellsOf(calls)
  {
    if calls != [] {
      ReplayOfALog(filter, log, calls[..|calls| - 1]);
    }
  }

  /** So a filter that writes down what it is told ends up with the items that were removed, in order. */
  lemma LogHoldsWhatWasRemoved(filter: ItemFilter<seq<Item>>, log: seq<Item>, items: seq<Item>)
    requires forall log, item :: filter.keep(log, item).1 == log && filter.onFiltered(log, item) == log + [item]
    ensures var pass := BothPasses(filter, log, items); pass.state == log + pass.reported
  {
    FilterCallsBack(filter, log, items);
    ReplayOfALog(filter, log, Callbacks(items, Decisions(filter, log, items)));
  }
}
