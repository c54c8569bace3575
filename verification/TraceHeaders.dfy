/** The `sentry-trace` and `baggage` headers that carry a trace from one process to another. */
module TraceHeaders {
  import opened Wrappers
  import opened Bytes
  import opened Text
  import Hex

  type TraceId = s: seq<byte> | |s| == 16 witness seq(16, _ => 0)
  type SpanId = s: seq<byte> | |s| == 8 witness seq(8, _ => 0)

  datatype Context = Context(traceId: TraceId, spanId: SpanId, sampled: Option<bool>, orgId: Option<nat>)

  datatype HeaderParseError = Missing | Invalid

  type Header = (string, string)

  const SENTRY_ORG_ID := "sentry-org_id"
  const SENTRY_TRACE := "sentry-trace"
  const BAGGAGE := "baggage"

  function Ids(c: Context): (s: string)
    ensures |s| == 49
  {
    Hex.Encode(c.traceId) + "-" + Hex.Encode(c.spanId)
  }

  function SentryTraceHeader(c: Context): string {
    Ids(c) + match c.sampled { case None => "" case Some(true) => "-1" case Some(false) => "-0" }
  }

  function Decision(s: string): Option<bool> {
    if s == "1" then Some(true) else if s == "0" then Some(false) else None
  }

  function FromSentryTrace(header: string): Option<Context> {
    FromTrimmed(Trim(header))
  }

  /** Splits the header at its first two dashes. */
  function FromTrimmed(header: string): Option<Context> {
    match SplitOnce(header, '-')
    case None => None
    case Some((first, rest)) =>
      var (second, sampled) := match SplitOnce(rest, '-') {
        case None => (rest, None)
        case Some((second, third)) => (second, Decision(third))
      };
      var traceId, spanId := Hex.DecodeExactly(first, 16), Hex.DecodeExactly(second, 8);
      if traceId.Some? && spanId.Some?
      then Some(Context(traceId.value, spanId.value, sampled, None))
      else None
  }

  /** How a context may be spelled: its ids in either case, and perhaps another dash and any sampling text. */
  predicate Spells(t: string, c: Context) {
    && |t| >= 49 && t[32] == '-' && (|t| > 49 ==> t[49] == '-')
    && Lower(t[..32]) == Hex.Encode(c.traceId) && Lower(t[33..49]) == Hex.Encode(c.spanId)
    && (c.sampled == Some(true) <==> t[49..] == "-1") && (c.sampled == Some(false) <==> t[49..] == "-0")
    && c.orgId == None
  }

  lemma YesNoOrNone(sampled: Option<bool>)
    ensures sampled == None || sampled == Some(true) || sampled == Some(false)
  {
    assert sampled.Some? ==> sampled.value == true || sampled.value == false;
  }

  /** Sampling text that begins with a dash, read without it. */
  lemma DecisionIs(dashed: string, sampled: Option<bool>)
    requires dashed != "" && dashed[0] == '-'
    ensures Decision(dashed[1..]) == sampled
            <==> (sampled == Some(true) <==> dashed == "-1") && (sampled == Some(false) <==> dashed == "-0")
  {
    YesNoOrNone(sampled);
    assert dashed == "-" + dashed[1..];
    assert "-1" == "-" + "1" && "-1"[1..] == "1" && "-0" == "-" + "0" && "-0"[1..] == "0";
  }

  lemma NoDashInHex(t: string, bytes: seq<byte>)
    requires Lower(t) == Hex.Encode(bytes)
    ensures '-' !in t
  {
    forall i | 0 <= i < |t| ensures t[i] != '-' {
      assert Lower(t)[i] == LowerChar(t[i]);
    }
  }

  lemma SpelledIsRead(t: string, c: Context)
    requires Spells(t, c)
    ensures FromTrimmed(t) == Some(c)
  {
    YesNoOrNone(c.sampled);
    NoDashInHex(t[..32], c.traceId);
    NoDashInHex(t[33..49], c.spanId);
    FindFirst(t, '-', 32);
    var first, rest := t[..32], t[33..];
    assert SplitOnce(t, '-') == Some((first, rest));
    var second := t[33..49];
    assert rest[..16] == second;
    if |t| == 49 {
      assert rest == second && t[49..] == "" && c.sampled == None;
      FindFirst(rest, '-', 16);
    } else {
      assert rest[16] == t[49] && rest[17..] == t[50..];
      FindFirst(rest, '-', 16);
      assert SplitOnce(rest, '-') == Some((second, t[50..]));
      assert t[49..][1..] == t[50..];
      DecisionIs(t[49..], c.sampled);
    }
    Hex.DecodesIffSpelled(first, c.traceId);
    Hex.DecodesIffSpelled(second, c.spanId);
  }

  lemma SplitOnceParts(s: string, c: char)
    requires SplitOnce(s, c).Some?
    ensures var (left, right) := SplitOnce(s, c).value;
            s == left + [c] + right
  {}

  lemma ReadIsSpelled(t: string, c: Context)
    requires FromTrimmed(t) == Some(c)
    ensures Spells(t, c)
  {
    hide Lower, Hex.Decode, SplitOnce;
    SplitOnceParts(t, '-');
    var (first, rest) := SplitOnce(t, '-').value;
    if SplitOnce(rest, '-').Some? {
      SplitOnceParts(rest, '-');
      var (second, third) := SplitOnce(rest, '-').value;
      Hex.DecodesIffSpelled(first, c.traceId);
      Hex.DecodesIffSpelled(second, c.spanId);
      SlicesOfThree(t, first, second, third);
      assert t[49..][1..] == third;
      DecisionIs(t[49..], c.sampled);
    } else {
      Hex.DecodesIffSpelled(first, c.traceId);
      Hex.DecodesIffSpelled(rest, c.spanId);
      assert t == first + "-" + rest && t[..32] == first && t[33..49] == rest && t[49..] == "";
    }
  }

  lemma SlicesOfThree(t: string, first: string, second: string, third: string)
    requires t == first + "-" + (second + "-" + third) && |first| == 32 && |second| == 16
    ensures |t| > 49 && t[..32] == first && t[32] == '-' && t[33..49] == second && t[49..] == "-" + third
  {}

  /** A header is read as a context exactly when, trimmed, it spells that context. */
  lemma ReadIffSpelled(header: string, c: Context)
    ensures FromSentryTrace(header) == Some(c) <==> Spells(Trim(header), c)
  {
    if FromSentryTrace(header) == Some(c) {
      ReadIsSpelled(Trim(header), c);
    }
    if Spells(Trim(header), c) {
      SpelledIsRead(Trim(header), c);
    }
  }

  lemma LowerHex(bytes: seq<byte>)
    ensures Lower(Hex.Encode(bytes)) == Hex.Encode(bytes)
  {}

  lemma PrintedSpells(c: Context)
    ensures Spells(SentryTraceHeader(c), c.(orgId := None))
  {
    var header := SentryTraceHeader(c);
    LowerHex(c.traceId);
    LowerHex(c.spanId);
    assert header[..32] == Hex.Encode(c.traceId) && header[33..49] == Hex.Encode(c.spanId);
    assert header[49..] == match c.sampled { case None => "" case Some(true) => "-1" case Some(false) => "-0" };
  }

  /** What is printed is read back, in whatever white space; only the organization is not carried. */
  lemma RoundTrip(c: Context, left: string, right: string)
    requires forall i :: 0 <= i < |left| ==> IsWhitespace(left[i])
    requires forall i :: 0 <= i < |right| ==> IsWhitespace(right[i])
    ensures FromSentryTrace(left + SentryTraceHeader(c) + right) == Some(c.(orgId := None))
  {
    var header := SentryTraceHeader(c);
    PrintedEdges(c);
    TrimPadded(left, header, right);
    PrintedSpells(c);
    ReadIffSpelled(left + header + right, c.(orgId := None));
  }

  lemma PrintedEdges(c: Context)
    ensures var header := SentryTraceHeader(c);
            header != "" && !IsWhitespace(header[0]) && !IsWhitespace(header[|header| - 1])
  {
    var trace, span := Hex.Encode(c.traceId), Hex.Encode(c.spanId);
    var header := SentryTraceHeader(c);
    assert header[0] == trace[0];
    assert c.sampled == None ==> header[|header| - 1] == span[|span| - 1];
  }
}
