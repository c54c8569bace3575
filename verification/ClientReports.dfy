/**
 Counting losses with atomics: threads add to counters and raise a flag, and whoever is about to send an
 envelope lowers the flag and sweeps the counters one by one. Every atomic operation is a step.
 */
module ClientReports {

  /** A thread that found the flag raised sweeps the counters from `next` on. */
  datatype State = State(
    counters: seq<nat>,
    flag: bool,
    recording: set<nat>,         // threads that added to a counter and have not raised the flag yet
    sweeping: map<nat, nat>,     // threads that sweep, and the next counter of each
    recorded: seq<nat>,          // history: all losses ever recorded, by counter
    swept: seq<nat>)             // history: all losses ever taken into reports, by counter

  datatype Step =
    | Add(thread: nat, counter: nat, quantity: nat)
    | RaiseFlag(thread: nat)
    | LowerFlag(thread: nat)
    | SweepOne(thread: nat)

  function Initial(size: nat): State {
    var zeros := seq(size, i => 0);
    State(zeros, false, {}, map[], zeros, zeros)
  }

  predicate WellFormed(s: State) {
    |s.counters| == |s.recorded| == |s.swept| && forall t :: t in s.sweeping ==> s.sweeping[t] < |s.counters|
  }

  predicate Enabled(s: State, step: Step) {
    match step
    // recording nothing is skipped
    case Add(t, c, quantity) => t !in s.recording && t !in s.sweeping && c < |s.counters| && quantity > 0
    case RaiseFlag(t) => t in s.recording
    case LowerFlag(t) => t !in s.recording && t !in s.sweeping && |s.counters| > 0
    case SweepOne(t) => t in s.sweeping
  }

  function After(s: State, step: Step): State
    requires WellFormed(s) && Enabled(s, step)
  {
    match step
    case Add(t, c, quantity) =>
      s.(counters := s.counters[c := s.counters[c] + quantity],
         recorded := s.recorded[c := s.recorded[c] + quantity],
         recording := s.recording + {t})
    case RaiseFlag(t) => s.(flag := true, recording := s.recording - {t})
    case LowerFlag(t) =>
      if s.flag then s.(flag := false, sweeping := s.sweeping[t := 0]) else s
    case SweepOne(t) =>
      var c := s.sweeping[t];
      s.(counters := s.counters[c := 0],
         swept := s.swept[c := s.swept[c] + s.counters[c]],
         sweeping := if c + 1 < |s.counters| then s.sweeping[t := c + 1] else s.sweeping - {t})
  }

  /** Someone will still see to counter `c`: the flag is up or about to be, or a sweep has not passed it. */
  ghost predicate Covered(s: State, c: nat) {
    s.flag || s.recording != {} || exists t :: t in s.sweeping && s.sweeping[t] <= c
  }

  ghost predicate Inv(s: State) {
    && WellFormed(s)
    && (forall c :: 0 <= c < |s.counters| ==> s.recorded[c] == s.counters[c] + s.swept[c])
    && (forall c :: 0 <= c < |s.counters| && s.counters[c] > 0 ==> Covered(s, c))
  }

  lemma StepKeepsInv(s: State, step: Step)
    requires Inv(s) && Enabled(s, step)
    ensures Inv(After(s, step))
  {
    var s' := After(s, step);
    forall c | 0 <= c < |s'.counters| && s'.counters[c] > 0 ensures Covered(s', c) {
      match step
      case Add(t, _, _) => assert t in s'.recording;
      case RaiseFlag(_) =>
      case LowerFlag(t) =>
        if s.flag {
          assert s'.sweeping[t] <= c;
        }
      case SweepOne(t) =>
        assert Covered(s, c);
        if !s.flag && s.recording == {} {
          var u :| u in s.sweeping && s.sweeping[u] <= c;
          assert s'.sweeping[u] <= c;
        }
    }
  }

  ghost predicate CanRun(s: State, steps: seq<Step>)
    requires WellFormed(s)
    decreases |steps|
  {
    steps == [] || (Enabled(s, steps[0]) && WellFormed(After(s, steps[0])) && CanRun(After(s, steps[0]), steps[1..]))
  }

  ghost function Run(s: State, steps: seq<Step>): (r: State)
    requires WellFormed(s) && CanRun(s, steps)
    ensures WellFormed(r)
    decreases |steps|
  {
    if steps == [] then s else Run(After(s, steps[0]), steps[1..])
  }

  lemma {:induction false} RunKeepsInv(s: State, steps: seq<Step>)
    requires Inv(s) && CanRun(s, steps)
    ensures Inv(Run(s, steps))
    decreases |steps|
  {
    if steps != [] {
      StepKeepsInv(s, steps[0]);
      RunKeepsInv(After(s, steps[0]), steps[1..]);
    }
  }

  /**
   In every interleaving a loss is counted once, still pending or in a report; and when no thread is in the
   middle of recording or sweeping, pending losses have the flag raised, so the next report carries them.
   */
  lemma NoLossIsStranded(size: nat, steps: seq<Step>)
    requires CanRun(Initial(size), steps)
    ensures var s := Run(Initial(size), steps);
            && |s.counters| == |s.recorded| == |s.swept|
            && (forall c :: 0 <= c < |s.counters| ==> s.recorded[c] == s.counters[c] + s.swept[c])
            && (s.recording == {} && s.sweeping == map[] && (exists c :: 0 <= c < |s.counters| && s.counters[c] > 0) ==>
                  s.flag)
  {
    RunKeepsInv(Initial(size), steps);
  }

  /** Of each counter, what had been recorded is in a report, or the thread's sweep has yet to come to it. */
  ghost predicate SweptOrAhead(s: State, base: seq<nat>, thread: nat) {
    && |base| == |s.counters| == |s.recorded| == |s.swept|
    && (forall c :: 0 <= c < |base| ==> base[c] <= s.recorded[c])
    && forall c :: 0 <= c < |base| ==> base[c] <= s.swept[c] || (thread in s.sweeping && s.sweeping[thread] <= c)
  }

  lemma StepKeepsSweep(s: State, step: Step, base: seq<nat>, thread: nat)
    requires Inv(s) && Enabled(s, step) && SweptOrAhead(s, base, thread)
    ensures SweptOrAhead(After(s, step), base, thread)
  {}

  lemma {:induction false} RunKeepsSweep(s: State, steps: seq<Step>, base: seq<nat>, thread: nat)
    requires Inv(s) && CanRun(s, steps) && SweptOrAhead(s, base, thread)
    ensures SweptOrAhead(Run(s, steps), base, thread)
    decreases |steps|
  {
    if steps != [] {
      StepKeepsInv(s, steps[0]);
      StepKeepsSweep(s, steps[0], base, thread);
      RunKeepsSweep(After(s, steps[0]), steps[1..], base, thread);
    }
  }

  /**
   A thread that finds the flag raised takes everything recorded before into reports: whatever other threads
   record and sweep meanwhile, when it has finished its sweep each of these losses is in a report.
   */
  lemma SweepTakesWhatCameBefore(size: nat, before: seq<Step>, thread: nat, steps: seq<Step>)
    requires CanRun(Initial(size), before) && Run(Initial(size), before).flag
    requires CanRun(Run(Initial(size), before), [LowerFlag(thread)] + steps)
    requires thread !in Run(Run(Initial(size), before), [LowerFlag(thread)] + steps).sweeping
    ensures var s := Run(Initial(size), before);
            var t := Run(s, [LowerFlag(thread)] + steps);
            |t.swept| == |s.recorded| && forall c :: 0 <= c < |s.recorded| ==> s.recorded[c] <= t.swept[c]
  {
    RunKeepsInv(Initial(size), before);
    var s := Run(Initial(size), before);
    assert ([LowerFlag(thread)] + steps)[1..] == steps;
    var lowered := After(s, LowerFlag(thread));
    StepKeepsInv(s, LowerFlag(thread));
    assert SweptOrAhead(lowered, s.recorded, thread);
    RunKeepsSweep(lowered, steps, s.recorded, thread);
  }

  // ----- from counters to a report

  /** A loss in a report; categories and reasons are numbered in the order of their declaration. */
  datatype Loss = Loss(category: nat, reason: nat, quantity: nat)

  /** The counter of a pair. */
  function Index(category: nat, reason: nat, reasons: nat): nat {
    category * reasons + reason
  }

  /** All pairs, category by category. */
  function Pairs(categories: nat, reasons: nat): seq<(nat, nat)> {
    if categories == 0 then []
    else Pairs(categories - 1, reasons) + seq(reasons, r requires 0 <= r < reasons => (categories - 1, r))
  }

  /** The pairs beside the counters, without those that counted nothing. */
  function Losses(pairs: seq<(nat, nat)>, quantities: seq<nat>): seq<Loss>
    requires |pairs| == |quantities|
  {
    if pairs == [] then [] else
    var n := |pairs| - 1;
    Losses(pairs[..n], quantities[..n])
    + if quantities[n] > 0 then [Loss(pairs[n].0, pairs[n].1, quantities[n])] else []
  }

  /** The counter of a pair stands where the pair comes up. */
  lemma {:induction false} PairsComeInOrder(categories: nat, reasons: nat)
    ensures |Pairs(categories, reasons)| == categories * reasons
    ensures forall j :: 0 <= j < |Pairs(categories, reasons)| ==>
              var (c, r) := Pairs(categories, reasons)[j]; c < categories && r < reasons && Index(c, r, reasons) == j
  {
    if categories > 0 {
      PairsComeInOrder(categories - 1, reasons);
      assert categories * reasons == (categories - 1) * reasons + reasons;
    }
  }

  lemma IndexGrows(c: nat, r: nat, d: nat, q: nat, reasons: nat)
    requires c < d && r < reasons
    ensures Index(c, r, reasons) < Index(d, q, reasons)
  {
    assert d * reasons >= (c + 1) * reasons == c * reasons + reasons;
  }

  /** Different pairs have different counters. */
  lemma IndexIsUnique(c: nat, r: nat, d: nat, q: nat, reasons: nat)
    requires r < reasons && q < reasons
    ensures Index(c, r, reasons) == Index(d, q, reasons) <==> (c, r) == (d, q)
  {
    if c < d {
      IndexGrows(c, r, d, q, reasons);
    } else if d < c {
      IndexGrows(d, q, c, r, reasons);
    }
  }

  lemma {:induction false} LossesAreTheCounted(pairs: seq<(nat, nat)>, quantities: seq<nat>, loss: Loss)
    requires |pairs| == |quantities|
    ensures loss in Losses(pairs, quantities)
            <==> exists j :: 0 <= j < |pairs| && pairs[j] == (loss.category, loss.reason)
                             && quantities[j] == loss.quantity > 0
  {
    if pairs != [] {
      var n := |pairs| - 1;
      LossesAreTheCounted(pairs[..n], quantities[..n], loss);
      if j :| 0 <= j < |pairs| && pairs[j] == (loss.category, loss.reason) && quantities[j] == loss.quantity > 0 {
        assert j < n ==> pairs[..n][j] == (loss.category, loss.reason) && quantities[..n][j] == loss.quantity;
      }
    }
  }

  /** A report names a loss exactly when its counter, and no other pair's, holds that quantity and not zero. */
  lemma ReportIsExact(categories: nat, reasons: nat, quantities: seq<nat>, loss: Loss)
    requires |quantities| == categories * reasons && loss.category < categories && loss.reason < reasons
    ensures Index(loss.category, loss.reason, reasons) < |quantities| == |Pairs(categories, reasons)|
    ensures loss in Losses(Pairs(categories, reasons), quantities)
            <==> loss.quantity == quantities[Index(loss.category, loss.reason, reasons)] > 0
  {
    var pairs := Pairs(categories, reasons);
    var at := Index(loss.category, loss.reason, reasons);
    PairsComeInOrder(categories, reasons);
    IndexGrows(loss.category, loss.reason, categories, 0, reasons);
    assert Index(categories, 0, reasons) == categories * reasons;
    hide Pairs, Losses, Index;
    LossesAreTheCounted(pairs, quantities, loss);
    forall j | 0 <= j < |pairs| ensures pairs[j] == (loss.category, loss.reason) <==> j == at {
      IndexIsUnique(pairs[j].0, pairs[j].1, loss.category, loss.reason, reasons);
    }
  }
}
