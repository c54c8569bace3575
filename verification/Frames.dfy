/** Deciding which frames of a stack trace belong to the application. */
module Frames {
  import opened Wrappers
  import opened FunctionNames

  datatype Frame = Frame(function_: Option<string>, package: Option<string>, inApp: Option<bool>)

  /** The caller's prefixes, and how the crate of a function is read from its name. */
  datatype Options = Options(include_: seq<string>, exclude: seq<string>, crateName: string -> Option<string>)

  const WELL_KNOWN_NOT_IN_APP: seq<string> := [
    "std::", "core::", "alloc::", "backtrace::", "sentry::", "sentry_core::", "sentry_types::",
    "sentry_backtrace::", "sentry_tracing::", "__rust_", "___rust_", "rust_begin_unwind", "_start",
    "anyhow::", "log::", "tokio::", "tracing_core::", "futures_core::", "futures_util::"]

  predicate StartsWithAny(f: string, patterns: seq<string>) {
    exists i :: 0 <= i < |patterns| && StartsWith(f, patterns[i])
  }

  /** What the lists say about a name; inclusion is stronger than exclusion. */
  function ByName(f: string, options: Options): Option<bool> {
    if StartsWithAny(f, options.include_) then Some(true)
    else if StartsWithAny(f, options.exclude) || StartsWithAny(f, WELL_KNOWN_NOT_IN_APP) then Some(false)
    else None
  }

  /** The first pass over a frame; frames without a name are left alone. */
  function Classified(frame: Frame, options: Options): Frame {
    match frame.function_
    case None => frame
    case Some(f) =>
      Frame(frame.function_,
            if frame.package.Some? then frame.package else options.crateName(f),
            if frame.inApp.Some? then frame.inApp else ByName(f, options))
  }

  predicate NamedInApp(frame: Frame) {
    frame.function_.Some? && frame.inApp == Some(true)
  }

  function ClassifiedAll(frames: seq<Frame>, options: Options): seq<Frame> {
    seq(|frames|, i requires 0 <= i < |frames| => Classified(frames[i], options))
  }

  predicate AnyInApp(frames: seq<Frame>) {
    exists i :: 0 <= i < |frames| && NamedInApp(frames[i])
  }

  function Filled(frame: Frame): Frame {
    if frame.inApp == None then frame.(inApp := Some(true)) else frame
  }

  /** When no named frame is in the application, every frame still open is. */
  function Processed(frames: seq<Frame>, options: Options): (r: seq<Frame>)
    ensures |r| == |frames|
  {
    var first := ClassifiedAll(frames, options);
    if AnyInApp(first) then first else seq(|first|, i requires 0 <= i < |first| => Filled(first[i]))
  }

  method AnyStartsWith(f: string, patterns: seq<string>) returns (r: bool)
    ensures r == StartsWithAny(f, patterns)
  {
    hide StartsWith;
    var i := 0;
    while i < |patterns|
      invariant 0 <= i <= |patterns|
      invariant forall j :: 0 <= j < i ==> !StartsWith(f, patterns[j])
    {
      var matches := FunctionStartsWith(f, patterns[i]);
      if matches {
        return true;
      }
      i := i + 1;
    }
    return false;
  }

  /** One turn of the first loop: the frame, and whether it is a named frame of the application. */
  method Classify(frame: Frame, options: Options) returns (r: Frame, inApp: bool)
    ensures r == Classified(frame, options) && inApp == NamedInApp(r)
  {
    hide StartsWithAny;
    r := frame;
    if frame.function_ == None {
      return r, false;
    }
    var f := frame.function_.value;
    if r.package == None {
      r := r.(package := options.crateName(f));
    }
    match r.inApp {
      case Some(b) => return r, b;
      case None =>
    }
    var included := AnyStartsWith(f, options.include_);
    if included {
      r := r.(inApp := Some(true));
      return r, true;
    }
    var excluded := AnyStartsWith(f, options.exclude);
    if excluded {
      r := r.(inApp := Some(false));
      return r, false;
    }
    var wellKnown := AnyStartsWith(f, WELL_KNOWN_NOT_IN_APP);
    if wellKnown {
      r := r.(inApp := Some(false));
    }
    return r, false;
  }

  /** The first loop. */
  method ClassifyAll(frames: array<Frame>, options: Options) returns (anyInApp: bool)
    modifies frames
    ensures frames[..] == ClassifiedAll(old(frames[..]), options) && anyInApp == AnyInApp(frames[..])
  {
    hide Classified, NamedInApp;
    anyInApp := false;
    var i := 0;
    while i < frames.Length
      invariant 0 <= i <= frames.Length
      invariant forall j :: 0 <= j < i ==> frames[j] == Classified(old(frames[j]), options)
      invariant forall j :: i <= j < frames.Length ==> frames[j] == old(frames[j])
      invariant anyInApp == exists j :: 0 <= j < i && NamedInApp(frames[j])
    {
      var frame, inApp := Classify(frames[i], options);
      frames[i] := frame;
      anyInApp := anyInApp || inApp;
      i := i + 1;
    }
  }

  /** The second loop. */
  method FillAll(frames: array<Frame>)
    modifies frames
    ensures forall j :: 0 <= j < frames.Length ==> frames[j] == Filled(old(frames[j]))
  {
    var i := 0;
    while i < frames.Length
      invariant 0 <= i <= frames.Length
      invariant forall j :: 0 <= j < frames.Length ==>
                  frames[j] == if j < i then Filled(old(frames[j])) else old(frames[j])
    {
      if frames[i].inApp == None {
        frames[i] := frames[i].(inApp := Some(true));
      }
      i := i + 1;
    }
  }

  method ProcessEventStacktrace(frames: array<Frame>, options: Options)
    modifies frames
    ensures frames[..] == Processed(old(frames[..]), options)
  {
    hide ClassifiedAll;
    var anyInApp := ClassifyAll(frames, options);
    ghost var first := frames[..];
    if !anyInApp {
      FillAll(frames);
      assert forall i :: 0 <= i < |first| ==> frames[i] == Filled(first[i]);
    }
  }

  lemma ClassifiedIsStable(frame: Frame, options: Options)
    ensures Classified(Classified(frame, options), options) == Classified(frame, options)
    ensures Classified(Filled(Classified(frame, options)), options) == Filled(Classified(frame, options))
  {}

  /** Processing twice is processing once. */
  lemma Idempotent(frames: seq<Frame>, options: Options)
    ensures Processed(Processed(frames, options), options) == Processed(frames, options)
  {
    hide Classified;
    var once := Processed(frames, options);
    forall i | 0 <= i < |frames|
      ensures Classified(once[i], options) == once[i]
    {
      ClassifiedIsStable(frames[i], options);
    }
    assert ClassifiedAll(once, options) == once;
    if !AnyInApp(ClassifiedAll(frames, options)) {
      assert forall i :: 0 <= i < |once| ==> Filled(once[i]) == once[i];
    }
  }

  /** What was decided or known before stays, and names never change. */
  lemma PresetsStay(frames: seq<Frame>, options: Options, i: nat)
    requires i < |frames|
    ensures var r := Processed(frames, options)[i];
            && r.function_ == frames[i].function_
            && (frames[i].inApp.Some? ==> r.inApp == frames[i].inApp)
            && (frames[i].package.Some? ==> r.package == frames[i].package)
  {}

  /** A named frame that was marked as the application's, or that the caller includes. */
  predicate DecidedInApp(frame: Frame, options: Options) {
    frame.function_.Some? &&
    (frame.inApp == Some(true) || (frame.inApp == None && StartsWithAny(frame.function_.value, options.include_)))
  }

  /** A frame stays open exactly when some named frame is decided to be the application's and no list knows this one. */
  lemma OpenIffUnknownBesideInApp(frames: seq<Frame>, options: Options, i: nat)
    requires i < |frames|
    ensures Processed(frames, options)[i].inApp == None <==>
            && (exists j :: 0 <= j < |frames| && DecidedInApp(frames[j], options))
            && frames[i].inApp == None
            && (frames[i].function_.Some? ==>
                  var f := frames[i].function_.value;
                  && !StartsWithAny(f, options.include_) && !StartsWithAny(f, options.exclude)
                  && !StartsWithAny(f, WELL_KNOWN_NOT_IN_APP))
  {
    hide StartsWithAny;
    var first := ClassifiedAll(frames, options);
    forall j | 0 <= j < |frames|
      ensures NamedInApp(first[j]) == DecidedInApp(frames[j], options)
    {
    }
    assert first[i] == Classified(frames[i], options);
  }

  /**
   The whole verdict on a frame. Presets stay; by its name a frame is in when the caller includes it, and else
   out when the caller excludes it or it is well known; the others are in unless another frame is. A missing
   package is read from the name.
   */
  lemma Verdict(frames: seq<Frame>, options: Options, i: nat)
    requires i < |frames|
    ensures var given, r := frames[i], Processed(frames, options)[i];
            var open := if exists j :: 0 <= j < |frames| && DecidedInApp(frames[j], options) then None else Some(true);
            && r.function_ == given.function_
            && r.inApp == (
                 if given.inApp != None then given.inApp
                 else if given.function_ == None then open
                 else if StartsWithAny(given.function_.value, options.include_) then Some(true)
                 else if StartsWithAny(given.function_.value, options.exclude) then Some(false)
                 else if StartsWithAny(given.function_.value, WELL_KNOWN_NOT_IN_APP) then Some(false)
                 else open)
            && r.package == (
                 if given.package != None || given.function_ == None then given.package
                 else options.crateName(given.function_.value))
  {
    hide StartsWithAny;
    var first := ClassifiedAll(frames, options);
    assert forall j :: 0 <= j < |frames| ==> NamedInApp(first[j]) == DecidedInApp(frames[j], options);
    assert first[i] == Classified(frames[i], options);
    if j :| 0 <= j < |frames| && DecidedInApp(frames[j], options) {
      assert NamedInApp(first[j]);
    }
  }
}
