/** Matching the names of functions in stack frames against prefixes. */
module FunctionNames {
  import opened Wrappers

  /** Bytes of a character in UTF-8. */
  function Width(c: char): nat {
    var n := c as int;
    if n < 0x80 then 1 else if n < 0x800 then 2 else if n < 0x1_0000 then 3 else 4
  }

  function Bytes(s: string): nat {
    if s == "" then 0 else Width(s[0]) + Bytes(s[1..])
  }

  /** `str::is_char_boundary`. */
  predicate IsCharBoundary(s: string, n: nat) {
    n == 0 || (s != "" && n >= Width(s[0]) && IsCharBoundary(s[1..], n - Width(s[0])))
  }

  /** A dot in a name can stand for a colon. */
  predicate Matches(f: char, p: char) {
    f == p || (f == '.' && p == ':')
  }

  /** Compares as many characters as both have. */
  predicate ZipMatches(f: string, p: string) {
    f == "" || p == "" || (Matches(f[0], p[0]) && ZipMatches(f[1..], p[1..]))
  }

  predicate HasPrefix(f: string, p: string) {
    |p| <= |f| && forall i :: 0 <= i < |p| ==> Matches(f[i], p[i])
  }

  /** Comparing only as many characters as both have is safe, because the bytes are counted first. */
  lemma {:induction false} BoundaryMakesZipSafe(f: string, p: string)
    ensures IsCharBoundary(f, Bytes(p)) && ZipMatches(f, p) <==> HasPrefix(f, p)
  {
    if p != "" && f != "" {
      BoundaryMakesZipSafe(f[1..], p[1..]);
      if Matches(f[0], p[0]) {
        assert Width(f[0]) == Width(p[0]);
        assert IsCharBoundary(f, Bytes(p)) == IsCharBoundary(f[1..], Bytes(p[1..]));
      }
      PrefixOfRest(f, p);
    }
  }

  lemma PrefixOfRest(f: string, p: string)
    requires f != "" && p != ""
    ensures HasPrefix(f, p) <==> Matches(f[0], p[0]) && HasPrefix(f[1..], p[1..])
  {
    if HasPrefix(f, p) {
      forall i | 0 <= i < |p[1..]|
        ensures Matches(f[1..][i], p[1..][i])
      {
        assert Matches(f[i + 1], p[i + 1]);
      }
    }
    if Matches(f[0], p[0]) && HasPrefix(f[1..], p[1..]) {
      forall i | 0 <= i < |p|
        ensures Matches(f[i], p[i])
      {
        assert i > 0 ==> Matches(f[1..][i - 1], p[1..][i - 1]);
      }
    }
  }

  /** `str::trim_start_matches`. */
  function TrimStartMatches(s: string, prefix: string): string
    requires prefix != ""
  {
    if prefix <= s then TrimStartMatches(s[|prefix|..], prefix) else s
  }

  const QUALIFIED := "<F as "

  /** The name without its wrapping. */
  function Unwrapped(f: string): string {
    TrimStartMatches(TrimStartMatches(TrimStartMatches(f, QUALIFIED), "<"), "_<")
  }

  /** Takes one opening bracket, in any of its spellings, off the name. */
  function TakeBracket(f: string): Option<string> {
    if QUALIFIED <= f then Some(f[6..])
    else if "<" <= f then Some(f[1..])
    else if "_<" <= f then Some(f[2..])
    else None
  }

  /** A bracket off the name for every one the pattern begins with. */
  function TakeBrackets(f: string, p: string): Option<(string, string)>
    decreases |p|
  {
    if !("<" <= p) then Some((f, p))
    else match TakeBracket(f) {
      case None => None
      case Some(rest) => TakeBrackets(rest, p[1..])
    }
  }

  /**
   A pattern without brackets matches a prefix of the unwrapped name; one with brackets needs a bracket of
   the name for each of its own, and matches a prefix of what follows them.
   */
  predicate StartsWith(f: string, p: string) {
    if "<" <= p
    then TakeBrackets(f, p).Some? && HasPrefix(TakeBrackets(f, p).value.0, TakeBrackets(f, p).value.1)
    else HasPrefix(Unwrapped(f), p)
  }

  method FunctionStartsWith(f: string, p: string) returns (r: bool)
    ensures r == StartsWith(f, p)
  {
    var name, pattern := f, p;
    if "<" <= pattern {
      while "<" <= pattern
        invariant TakeBrackets(name, pattern) == TakeBrackets(f, p)
        decreases |pattern|
      {
        pattern := pattern[1..];
        if QUALIFIED <= name {
          name := name[6..];
        } else if "<" <= name {
          name := name[1..];
        } else if "_<" <= name {
          name := name[2..];
        } else {
          return false;
        }
      }
    } else {
      name := TrimStartMatches(TrimStartMatches(TrimStartMatches(name, QUALIFIED), "<"), "_<");
    }
    BoundaryMakesZipSafe(name, pattern);
    if !IsCharBoundary(name, Bytes(pattern)) {
      return false;
    }
    return ZipMatches(name, pattern);
  }

  // ----- what matching means

  /** The text with its colons written as dots. */
  function Dotted(p: string): (d: string)
    ensures |d| == |p|
  {
    seq(|p|, i requires 0 <= i < |p| => if p[i] == ':' then '.' else p[i])
  }

  /** A name matches what it begins with, with the colons as they are or all written as dots. */
  lemma PrefixMatches(p: string, rest: string)
    ensures HasPrefix(p + rest, p) && HasPrefix(Dotted(p) + rest, p)
  {}

  /** Only a dot in the name for a colon in the pattern makes a difference: without either, matching is being a prefix. */
  lemma PlainPrefixElsewhere(f: string, p: string)
    requires '.' !in f || ':' !in p
    ensures HasPrefix(f, p) <==> p <= f
  {
    if HasPrefix(f, p) {
      forall i | 0 <= i < |p| ensures f[i] == p[i] {
        assert Matches(f[i], p[i]);
        assert f[i] in f && p[i] in p;
      }
    }
  }

  function Repeat(s: string, n: nat): string {
    if n == 0 then "" else s + Repeat(s, n - 1)
  }

  /** The text is so many copies of the prefix, and then the rest, which does not begin with it. */
  predicate CopiesAndRest(s: string, prefix: string, n: nat, rest: string) {
    s == Repeat(prefix, n) + rest && !(prefix <= rest)
  }

  ghost predicate Stripped(s: string, prefix: string, rest: string) {
    exists n: nat :: CopiesAndRest(s, prefix, n, rest)
  }

  lemma CopyInFront(less: string, prefix: string, n: nat, rest: string)
    ensures CopiesAndRest(prefix + less, prefix, n + 1, rest) <==> CopiesAndRest(less, prefix, n, rest)
  {
    var copies := Repeat(prefix, n) + rest;
    assert Repeat(prefix, n + 1) + rest == prefix + copies;
    if prefix + less == prefix + copies {
      assert less == (prefix + less)[|prefix|..] == (prefix + copies)[|prefix|..] == copies;
    }
  }

  lemma NoCopies(s: string, prefix: string, n: nat, rest: string)
    ensures n == 0 ==> (CopiesAndRest(s, prefix, n, rest) <==> s == rest && !(prefix <= s))
    ensures n > 0 && CopiesAndRest(s, prefix, n, rest) ==> prefix <= s
  {
    assert "" + rest == rest;
    assert n > 0 ==> Repeat(prefix, n) + rest == prefix + (Repeat(prefix, n - 1) + rest);
  }

  /** Trimming takes off every copy at the front. */
  lemma {:induction false} TrimsEveryCopy(s: string, prefix: string, rest: string)
    requires prefix != ""
    ensures TrimStartMatches(s, prefix) == rest <==> Stripped(s, prefix, rest)
    decreases |s|
  {
    hide CopiesAndRest;
    if prefix <= s {
      var less := s[|prefix|..];
      assert s == prefix + less;
      TrimsEveryCopy(less, prefix, rest);
      if n: nat :| CopiesAndRest(less, prefix, n, rest) {
        CopyInFront(less, prefix, n, rest);
      }
      if n: nat :| CopiesAndRest(s, prefix, n, rest) {
        NoCopies(s, prefix, n, rest);
        CopyInFront(less, prefix, n - 1, rest);
      }
    } else {
      NoCopies(s, prefix, 0, rest);
      if n: nat :| CopiesAndRest(s, prefix, n, rest) {
        NoCopies(s, prefix, n, rest);
      }
    }
  }

  /** Taking off every `<F as ` leaves `a`, taking every `<` off that leaves `b`, and taking every `_<` off that the name. */
  ghost predicate InThisOrder(f: string, a: string, b: string, name: string) {
    Stripped(f, "<F as ", a) && Stripped(a, "<", b) && Stripped(b, "_<", name)
  }

  /** Unwrapping a name does just this. */
  lemma UnwrapsInThisOrder(f: string, name: string)
    ensures Unwrapped(f) == name <==> exists a, b :: InThisOrder(f, a, b, name)
  {
    hide Stripped, TrimStartMatches;
    var a := TrimStartMatches(f, "<F as ");
    var b := TrimStartMatches(a, "<");
    TrimsEveryCopy(f, "<F as ", a);
    TrimsEveryCopy(a, "<", b);
    TrimsEveryCopy(b, "_<", name);
    assert Unwrapped(f) == name ==> InThisOrder(f, a, b, name);
    if a', b' :| InThisOrder(f, a', b', name) {
      TrimsEveryCopy(f, "<F as ", a');
      TrimsEveryCopy(a', "<", b');
    }
  }

  /** The name begins with these brackets, the longest spelling wherever there is a choice, and goes on with the rest. */
  predicate Bracketed(f: string, brackets: seq<string>, rest: string) {
    if brackets == [] then f == rest
    else
      && brackets[0] in ["<F as ", "<", "_<"] && brackets[0] <= f && ("<F as " <= f ==> brackets[0] == "<F as ")
      && Bracketed(f[|brackets[0]|..], brackets[1..], rest)
  }

  lemma TakenBracket(f: string, bracket: string)
    requires bracket in ["<F as ", "<", "_<"] && bracket <= f && ("<F as " <= f ==> bracket == "<F as ")
    ensures TakeBracket(f) == Some(f[|bracket|..])
  {
    assert bracket == "_<" ==> f[0] == '_';
  }

  lemma BracketTaken(f: string) returns (bracket: string)
    requires TakeBracket(f).Some?
    ensures bracket in ["<F as ", "<", "_<"] && bracket <= f && ("<F as " <= f ==> bracket == "<F as ")
    ensures TakeBracket(f) == Some(f[|bracket|..])
  {
    bracket := if QUALIFIED <= f then QUALIFIED else if "<" <= f then "<" else "_<";
  }

  ghost predicate BracketedSo(f: string, n: nat, rest: string) {
    exists brackets :: |brackets| == n && Bracketed(f, brackets, rest)
  }

  lemma {:induction false} BracketsTaken(f: string, n: nat, q: string, rest: string)
    requires !("<" <= q)
    ensures TakeBrackets(f, Repeat("<", n) + q) == Some((rest, q)) <==> BracketedSo(f, n, rest)
    ensures TakeBrackets(f, Repeat("<", n) + q).Some? ==> TakeBrackets(f, Repeat("<", n) + q).value.1 == q
    decreases n
  {
    var p := Repeat("<", n) + q;
    hide TakeBracket;
    if n == 0 {
      assert p == q;
      assert f == rest ==> Bracketed(f, [], rest);
    } else {
      assert p[1..] == Repeat("<", n - 1) + q;
      if TakeBracket(f).Some? {
        var bracket := BracketTaken(f);
        BracketsTaken(f[|bracket|..], n - 1, q, rest);
        OneBracketMore(f, bracket, n - 1, rest);
      } else {
        NoBracket(f, n, rest);
      }
    }
  }

  lemma NoBracket(f: string, n: nat, rest: string)
    requires n > 0 && TakeBracket(f).None?
    ensures !BracketedSo(f, n, rest)
  {
    if brackets: seq<string> :| |brackets| == n && Bracketed(f, brackets, rest) {
      TakenBracket(f, brackets[0]);
    }
  }

  lemma OneBracketMore(f: string, bracket: string, n: nat, rest: string)
    requires bracket in ["<F as ", "<", "_<"] && bracket <= f && ("<F as " <= f ==> bracket == "<F as ")
    ensures BracketedSo(f, n + 1, rest) <==> BracketedSo(f[|bracket|..], n, rest)
  {
    if brackets: seq<string> :| |brackets| == n + 1 && Bracketed(f, brackets, rest) {
      assert brackets[0] == bracket by {
        TakenBracket(f, brackets[0]);
        TakenBracket(f, bracket);
      }
      assert Bracketed(f[|bracket|..], brackets[1..], rest);
    }
    if more: seq<string> :| |more| == n && Bracketed(f[|bracket|..], more, rest) {
      assert ([bracket] + more)[1..] == more;
      assert Bracketed(f, [bracket] + more, rest);
    }
  }

  /** A pattern with brackets matches a name with a bracket for each of them and then a prefix of what follows. */
  lemma BracketsMatchBrackets(f: string, n: nat, q: string)
    requires n > 0 && !("<" <= q)
    ensures StartsWith(f, Repeat("<", n) + q) <==> exists rest :: BracketedSo(f, n, rest) && HasPrefix(rest, q)
  {
    hide TakeBrackets, BracketedSo, HasPrefix;
    var p := Repeat("<", n) + q;
    assert p[0] == '<';
    forall rest ensures TakeBrackets(f, p) == Some((rest, q)) <==> BracketedSo(f, n, rest) {
      BracketsTaken(f, n, q, rest);
    }
    BracketsTaken(f, n, q, "");
  }
}
