/**
 * The few Python `str` operations the model relies on, written out on `seq<char>`:
 * `startswith` (Dafny's prefix order `<=`), `strip`, `replace(pat, "")` and
 * `splitlines`.
 */
module Text {

  /** `p <= s` fails as soon as `s` is too short or disagrees with `p` at one position. */
  lemma MismatchRefutesPrefix(p: string, s: string, i: nat)
    requires i < |p|
    requires i >= |s| || s[i] != p[i]
    ensures !(p <= s)
  {
    if |p| <= |s| {
      assert s[..|p|][i] == s[i];
    }
  }

  /** The characters `str.splitlines` ends a line at (`\r\n` counts as one boundary). */
  predicate IsLineBreak(c: char)
  {
    c in {'\n', '\r', '\U{0B}', '\U{0C}', '\U{1C}', '\U{1D}', '\U{1E}', '\U{85}', '\U{2028}', '\U{2029}'}
  }

  /** `s` holds no line boundary, so it reads back as exactly one line. */
  predicate OneLine(s: string)
  {
    forall i :: 0 <= i < |s| ==> !IsLineBreak(s[i])
  }

  /** The first line of a non-empty text, without its boundary, and the text after that boundary. */
  function FirstLine(s: string): (r: (string, string))
    requires s != []
    ensures |r.1| < |s| && OneLine(r.0)
    ensures |r.0| <= |s| && r.0 == s[..|r.0|]
  {
    if IsLineBreak(s[0]) then
      ("", if s[0] == '\r' && |s| > 1 && s[1] == '\n' then s[2..] else s[1..])
    else if |s| == 1 then
      (s, "")
    else
      var (line, rest) := FirstLine(s[1..]);
      ([s[0]] + line, rest)
  }

  /** `s.splitlines()`: the lines of `s` without their boundaries; a final boundary opens no empty line. */
  function SplitLines(s: string): (r: seq<string>)
    ensures forall i :: 0 <= i < |r| ==> OneLine(r[i])
    ensures s == [] <==> r == []
    decreases |s|
  {
    if s == [] then [] else [FirstLine(s).0] + SplitLines(FirstLine(s).1)
  }

  /** What `writelines([f'{x}\n' for x in xs])` writes: each entry followed by a newline. */
  function Lines(xs: seq<string>): (r: string)
    ensures |r| >= |xs| && (r == [] <==> xs == [])
  {
    if xs == [] then "" else xs[0] + "\n" + Lines(xs[1..])
  }

  /** Text written one line at a time: empty, or ending in a newline. */
  predicate Terminated(s: string)
  {
    s == [] || s[|s| - 1] == '\n'
  }

  /** A line with no boundary in it, followed by `\n`, is read back as itself. */
  lemma {:induction false} FirstLineOfWritten(x: string, rest: string)
    requires OneLine(x)
    ensures FirstLine(x + "\n" + rest) == (x, rest)
    decreases |x|
  {
    var s := x + "\n" + rest;
    if x != [] {
      assert s[1..] == x[1..] + "\n" + rest;
      FirstLineOfWritten(x[1..], rest);
      assert [x[0]] + x[1..] == x;
    } else {
      assert s[1..] == rest;
    }
  }

  /** Lines written with `Lines` are read back unchanged by `SplitLines`, unless one of them holds a boundary. */
  lemma {:induction false} SplitLinesOfLines(xs: seq<string>)
    requires forall i :: 0 <= i < |xs| ==> OneLine(xs[i])
    ensures SplitLines(Lines(xs)) == xs
    decreases |xs|
  {
    if xs != [] {
      FirstLineOfWritten(xs[0], Lines(xs[1..]));
      SplitLinesOfLines(xs[1..]);
    }
  }

  /** Writing further text after a terminated text leaves the lines already there intact. */
  lemma {:induction false} FirstLineOfTerminated(s: string, t: string)
    requires s != [] && Terminated(s)
    ensures FirstLine(s + t) == (FirstLine(s).0, FirstLine(s).1 + t)
    ensures Terminated(FirstLine(s).1)
    decreases |s|
  {
    var st := s + t;
    if IsLineBreak(s[0]) {
      if s[0] == '\r' && |s| > 1 && s[1] == '\n' {
        assert st[2..] == s[2..] + t;
      } else {
        assert |s| > 1 ==> st[1] == s[1];
        assert st[1..] == s[1..] + t;
      }
    } else {
      assert |s| > 1;
      assert st[1..] == s[1..] + t;
      FirstLineOfTerminated(s[1..], t);
    }
  }

  /** Appending one line to a terminated text adds exactly that line, and keeps the text terminated. */
  lemma {:induction false} SplitLinesAppend(s: string, x: string)
    requires Terminated(s) && OneLine(x)
    ensures SplitLines(s + x + "\n") == SplitLines(s) + [x]
    ensures Terminated(s + x + "\n")
    decreases |s|
  {
    if s == [] {
      assert s + x + "\n" == x + "\n" + "";
      FirstLineOfWritten(x, "");
      assert SplitLines("") == [];
    } else {
      var t := x + "\n";
      assert s + x + "\n" == s + t;
      FirstLineOfTerminated(s, t);
      var rest := FirstLine(s).1;
      assert rest + t == rest + x + "\n";
      SplitLinesAppend(rest, x);
      assert SplitLines(s + t) == [FirstLine(s).0] + SplitLines(rest + t);
      assert SplitLines(s) == [FirstLine(s).0] + SplitLines(rest);
    }
  }

  /** Text written with `Lines` is terminated. */
  lemma {:induction false} LinesTerminated(xs: seq<string>)
    ensures Terminated(Lines(xs))
    decreases |xs|
  {
    if xs != [] {
      LinesTerminated(xs[1..]);
      var tail := Lines(xs[1..]);
      assert Lines(xs) == (xs[0] + "\n") + tail;
    }
  }

  /** The characters `str.isspace` accepts, which `str.strip()` removes. */
  predicate IsSpace(c: char)
  {
    '\t' <= c <= '\r' || '\U{1C}' <= c <= ' ' || c == '\U{85}' || c == '\U{A0}' || c == '\U{1680}'
    || '\U{2000}' <= c <= '\U{200A}' || c == '\U{2028}' || c == '\U{2029}' || c == '\U{202F}' || c == '\U{205F}'
    || c == '\U{3000}'
  }

  /** `s.lstrip()`: `s` without its leading whitespace. */
  function TrimStart(s: string): string
  {
    if s != [] && IsSpace(s[0]) then TrimStart(s[1..]) else s
  }

  /** `s.rstrip()`: `s` without its trailing whitespace. */
  function TrimEnd(s: string): string
  {
    if s != [] && IsSpace(s[|s| - 1]) then TrimEnd(s[..|s| - 1]) else s
  }

  /** `lstrip` keeps a suffix, cuts only whitespace, and stops at the first other character. */
  lemma {:induction false} TrimStartCuts(s: string)
    ensures |TrimStart(s)| <= |s| && TrimStart(s) == s[|s| - |TrimStart(s)|..]
    ensures TrimStart(s) == [] || !IsSpace(TrimStart(s)[0])
    ensures forall k :: 0 <= k < |s| - |TrimStart(s)| ==> IsSpace(s[k])
    decreases |s|
  {
    if s != [] && IsSpace(s[0]) {
      TrimStartCuts(s[1..]);
      forall k | 1 <= k < |s| - |TrimStart(s)| ensures IsSpace(s[k]) {
        assert s[k] == s[1..][k - 1];
      }
    }
  }

  /** `rstrip` keeps a prefix, cuts only whitespace, and stops at the last other character. */
  lemma {:induction false} TrimEndCuts(s: string)
    ensures |TrimEnd(s)| <= |s| && TrimEnd(s) == s[..|TrimEnd(s)|]
    ensures TrimEnd(s) == [] || !IsSpace(TrimEnd(s)[|TrimEnd(s)| - 1])
    ensures forall k :: |TrimEnd(s)| <= k < |s| ==> IsSpace(s[k])
    decreases |s|
  {
    if s != [] && IsSpace(s[|s| - 1]) {
      var init := s[..|s| - 1];
      TrimEndCuts(init);
      forall k | |TrimEnd(s)| <= k < |s| - 1 ensures IsSpace(s[k]) {
        assert s[k] == init[k];
      }
    }
  }

  /** `r` is `s` from position `i` on, cut short, with only whitespace cut off at either end. */
  predicate TrimmedAt(s: string, r: string, i: nat)
  {
    i + |r| <= |s| && r == s[i..i + |r|]
    && (forall k :: 0 <= k < i ==> IsSpace(s[k])) && (forall k :: i + |r| <= k < |s| ==> IsSpace(s[k]))
  }

  /** `s.strip()`: `s` without its leading and its trailing whitespace. */
  function Strip(s: string): string
  {
    TrimEnd(TrimStart(s))
  }

  /**
   * What `strip` keeps neither starts nor ends with whitespace, is one stretch
   * of the text, and everything it cuts off is whitespace.
   */
  lemma StripCutsOnlySpace(s: string)
    ensures Strip(s) == [] || (!IsSpace(Strip(s)[0]) && !IsSpace(Strip(s)[|Strip(s)| - 1]))
    ensures |TrimStart(s)| <= |s| && TrimmedAt(s, Strip(s), |s| - |TrimStart(s)|)
  {
    var t := TrimStart(s);
    var r := Strip(s);
    TrimStartCuts(s);
    TrimEndCuts(t);
    var i := |s| - |t|;
    assert r == s[i..i + |r|];
    forall k | i + |r| <= k < |s| ensures IsSpace(s[k]) {
      assert s[k] == t[k - i];
    }
  }

  /** Stripping twice strips nothing more. */
  lemma StripIsIdempotent(s: string)
    ensures Strip(Strip(s)) == Strip(s)
  {
    var r := Strip(s);
    StripCutsOnlySpace(s);
    assert TrimStart(r) == r;
    assert TrimEnd(r) == r;
  }

  /** Text made only of whitespace strips to nothing. */
  lemma {:induction false} StripOfSpace(s: string)
    requires forall k :: 0 <= k < |s| ==> IsSpace(s[k])
    ensures Strip(s) == ""
  {
    TrimStartCuts(s);
  }

  /** `pat` occurs in `s` at position `i`. */
  predicate OccursAt(pat: string, s: string, i: nat)
  {
    i + |pat| <= |s| && s[i..i + |pat|] == pat
  }

  /** `s.replace(pat, "")`: every occurrence of `pat` found scanning left to right, without overlap, is removed. */
  function RemoveAll(s: string, pat: string): (r: string)
    requires pat != []
    ensures |r| <= |s|
    decreases |s|
  {
    if |s| < |pat| then s
    else if s[..|pat|] == pat then RemoveAll(s[|pat|..], pat)
    else [s[0]] + RemoveAll(s[1..], pat)
  }

  /** Text in which `pat` does not occur comes back unchanged. */
  lemma {:induction false} RemoveAllAbsent(s: string, pat: string)
    requires pat != []
    requires forall i :: 0 <= i < |s| ==> !OccursAt(pat, s, i)
    ensures RemoveAll(s, pat) == s
    decreases |s|
  {
    if |pat| <= |s| {
      assert !OccursAt(pat, s, 0);
      forall i | 0 <= i < |s| - 1
        ensures !OccursAt(pat, s[1..], i)
      {
        assert !OccursAt(pat, s, i + 1);
        if i + |pat| <= |s| - 1 {
          assert s[1..][i..i + |pat|] == s[i + 1..i + 1 + |pat|];
        }
      }
      RemoveAllAbsent(s[1..], pat);
    }
  }

  /** A trailing occurrence of `pat` is removed and the text before it kept, when no earlier occurrence is found. */
  lemma {:induction false} RemoveAllTrailing(s: string, pat: string)
    requires pat != []
    requires forall i :: 0 <= i < |s| ==> !OccursAt(pat, s + pat, i)
    ensures RemoveAll(s + pat, pat) == s
    decreases |s|
  {
    var t := s + pat;
    if s == [] {
      assert t[..|pat|] == pat && t[|pat|..] == [];
    } else {
      assert !OccursAt(pat, t, 0);
      assert t[1..] == s[1..] + pat;
      forall i | 0 <= i < |s| - 1
        ensures !OccursAt(pat, s[1..] + pat, i)
      {
        assert !OccursAt(pat, t, i + 1);
        assert t[1..][i..i + |pat|] == t[i + 1..i + 1 + |pat|];
      }
      RemoveAllTrailing(s[1..], pat);
      assert [s[0]] + s[1..] == s;
    }
  }
}
