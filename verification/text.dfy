/**
 * The few operations on Python strings that the gateway relies on:
 * `str.splitlines`, `str.strip`, `str.lower` and the `in` substring test.
 */
module Text {

  /** The characters at which Python's `str.splitlines` ends a line. */
  predicate IsLineBoundary(c: char) {
    c == '\n' || c == '\r' || c == '\U{000B}' || c == '\U{000C}'
    || c == '\U{001C}' || c == '\U{001D}' || c == '\U{001E}'
    || c == '\U{0085}' || c == '\U{2028}' || c == '\U{2029}'
  }

  /** The characters Python's `str.isspace` accepts, which `str.strip()` removes. */
  predicate IsSpace(c: char) {
    c == ' ' || '\t' <= c <= '\r' || '\U{001C}' <= c <= '\U{001F}'
    || c == '\U{0085}' || c == '\U{00A0}' || c == '\U{1680}'
    || '\U{2000}' <= c <= '\U{200A}' || c == '\U{2028}' || c == '\U{2029}'
    || c == '\U{202F}' || c == '\U{205F}' || c == '\U{3000}'
  }

  predicate NoLineBoundary(s: string) {
    forall k | 0 <= k < |s| :: !IsLineBoundary(s[k])
  }

  /** The index of the first line boundary at or after `from`, or `|s|` when there is none. */
  function LineEnd(s: string, from: nat): (e: nat)
    requires from <= |s|
    ensures from <= e <= |s|
    ensures e < |s| ==> IsLineBoundary(s[e])
    ensures forall k | from <= k < e :: !IsLineBoundary(s[k])
    decreases |s| - from
  {
    if from == |s| || IsLineBoundary(s[from]) then from else LineEnd(s, from + 1)
  }

  /** Where the next line starts after the boundary at `e`: "\r\n" is one boundary. */
  function NextLine(s: string, e: nat): (n: nat)
    requires e < |s|
    ensures e < n <= |s|
  {
    if s[e] == '\r' && e + 1 < |s| && s[e + 1] == '\n' then e + 2 else e + 1
  }

  /** The lines of `s[from..]`, as `str.splitlines` finds them. */
  function LinesFrom(s: string, from: nat): (lines: seq<string>)
    requires from <= |s|
    ensures |lines| == 0 <==> from == |s|
    decreases |s| - from
  {
    if from == |s| then []
    else
      var e := LineEnd(s, from);
      if e == |s| then [s[from..]]
      else [s[from..e]] + LinesFrom(s, NextLine(s, e))
  }

  /**
   * `s.splitlines()`: the lines of `s` without their terminators; "\r\n" ends one line,
   * a final terminator does not open an empty last line, and "" has no lines at all.
   */
  function Lines(s: string): (lines: seq<string>)
    ensures |lines| == 0 <==> s == ""
  {
    LinesFrom(s, 0)
  }

  /** No line holds a boundary character, and none is longer than the text. */
  lemma {:induction false} LinesFromHaveNoBoundary(s: string, from: nat)
    requires from <= |s|
    ensures forall i | 0 <= i < |LinesFrom(s, from)| ::
              NoLineBoundary(LinesFrom(s, from)[i]) && |LinesFrom(s, from)[i]| <= |s| - from
    decreases |s| - from
  {
    if from < |s| {
      var e := LineEnd(s, from);
      if e < |s| {
        var rest := LinesFrom(s, NextLine(s, e));
        LinesFromHaveNoBoundary(s, NextLine(s, e));
        var lines := LinesFrom(s, from);
        assert lines == [s[from..e]] + rest;
        SliceHasNoBoundary(s, from, e);
        forall i | 0 <= i < |lines|
          ensures NoLineBoundary(lines[i]) && |lines[i]| <= |s| - from
        {
          if i > 0 {
            assert lines[i] == rest[i - 1];
            assert NoLineBoundary(rest[i - 1]) && |rest[i - 1]| <= |s| - NextLine(s, e);
          } else {
            assert lines[i] == s[from..e];
          }
        }
      } else {
        SliceHasNoBoundary(s, from, e);
        assert s[from..e] == s[from..];
      }
    }
  }

  lemma SliceHasNoBoundary(s: string, from: nat, e: nat)
    requires from <= |s| && e == LineEnd(s, from)
    ensures NoLineBoundary(s[from..e])
  {
    assert forall k | 0 <= k < e - from :: s[from..e][k] == s[from + k];
  }

  lemma LinesHaveNoBoundary(s: string)
    ensures forall i | 0 <= i < |Lines(s)| :: NoLineBoundary(Lines(s)[i]) && |Lines(s)[i]| <= |s|
  {
    LinesFromHaveNoBoundary(s, 0);
  }

  /** Each line followed by "\n": the text a list of lines is printed as. */
  function Terminated(lines: seq<string>): string {
    if lines == [] then "" else lines[0] + "\n" + Terminated(lines[1..])
  }

  /** Newline-terminated: `s` itself when empty or ending in "\n", otherwise `s + "\n"`. */
  function WithFinalNewline(s: string): string {
    if s == "" || s[|s| - 1] == '\n' then s else s + "\n"
  }

  lemma {:induction false} LinesFromInverse(s: string, from: nat)
    requires from <= |s|
    requires forall k | 0 <= k < |s| :: IsLineBoundary(s[k]) ==> s[k] == '\n'
    ensures Terminated(LinesFrom(s, from)) == WithFinalNewline(s[from..])
    decreases |s| - from
  {
    if from < |s| {
      var e := LineEnd(s, from);
      if e < |s| {
        LinesFromInverse(s, NextLine(s, e));
        InverseAtNewline(s, from, e);
      } else {
        InverseAtEnd(s, from);
      }
    }
  }

  lemma InverseAtNewline(s: string, from: nat, e: nat)
    requires forall k | 0 <= k < |s| :: IsLineBoundary(s[k]) ==> s[k] == '\n'
    requires from <= e < |s| && e == LineEnd(s, from)
    requires Terminated(LinesFrom(s, NextLine(s, e))) == WithFinalNewline(s[NextLine(s, e)..])
    ensures Terminated(LinesFrom(s, from)) == WithFinalNewline(s[from..])
  {
    assert s[e] == '\n';
    assert NextLine(s, e) == e + 1;
    var rest := LinesFrom(s, e + 1);
    assert LinesFrom(s, from) == [s[from..e]] + rest;
    TerminatedCons(s[from..e], rest);
    NewlineStep(s, from, e, Terminated(rest));
  }

  lemma InverseAtEnd(s: string, from: nat)
    requires from < |s| && LineEnd(s, from) == |s|
    ensures Terminated(LinesFrom(s, from)) == WithFinalNewline(s[from..])
  {
    assert LinesFrom(s, from) == [s[from..]];
    TerminatedCons(s[from..], []);
    assert !IsLineBoundary(s[|s| - 1]);
  }

  lemma TerminatedCons(line: string, rest: seq<string>)
    ensures Terminated([line] + rest) == line + "\n" + Terminated(rest)
  {
    assert ([line] + rest)[1..] == rest;
  }

  lemma NewlineStep(s: string, from: nat, e: nat, tail: string)
    requires from <= e < |s| && s[e] == '\n'
    requires tail == WithFinalNewline(s[e + 1..])
    ensures s[from..e] + "\n" + tail == WithFinalNewline(s[from..])
  {
    var rest := s[e + 1..];
    assert s[from..] == s[from..e] + "\n" + rest;
    if rest != "" {
      assert rest[|rest| - 1] == s[|s| - 1];
    }
  }

  /**
   * On text whose only line boundary is "\n", splitting into lines loses nothing but
   * a missing final newline: printing the lines back gives the text, newline-terminated.
   */
  lemma LinesInverse(s: string)
    requires forall k | 0 <= k < |s| :: IsLineBoundary(s[k]) ==> s[k] == '\n'
    ensures Terminated(Lines(s)) == if s == "" || s[|s| - 1] == '\n' then s else s + "\n"
  {
    LinesFromInverse(s, 0);
    assert s[0..] == s;
  }

  /** A line that holds no boundary character splits into exactly itself. */
  lemma OneLine(line: string)
    requires NoLineBoundary(line)
    ensures Lines(line + "\n") == [line]
  {
    var s := line + "\n";
    assert LineEnd(s, 0) == |line| by {
      assert IsLineBoundary(s[|line|]);
    }
    assert NextLine(s, |line|) == |s|;
    assert s[0..|line|] == line;
  }

  /** The first index at or after `from` that is not whitespace, or `|s|`. */
  function SpaceEnd(s: string, from: nat): (i: nat)
    requires from <= |s|
    ensures from <= i <= |s|
    ensures forall k | from <= k < i :: IsSpace(s[k])
    ensures i < |s| ==> !IsSpace(s[i])
    decreases |s| - from
  {
    if from < |s| && IsSpace(s[from]) then SpaceEnd(s, from + 1) else from
  }

  /** The end of `s[lo..hi]` once its trailing whitespace is cut. */
  function SpaceStart(s: string, lo: nat, hi: nat): (j: nat)
    requires lo <= hi <= |s|
    ensures lo <= j <= hi
    ensures forall k | j <= k < hi :: IsSpace(s[k])
    ensures j > lo ==> !IsSpace(s[j - 1])
    decreases hi - lo
  {
    if lo < hi && IsSpace(s[hi - 1]) then SpaceStart(s, lo, hi - 1) else hi
  }

  /** `r` is `s` with `i` whitespace characters cut from the front and the rest from the back. */
  predicate StrippedAt(s: string, r: string, i: nat) {
    && i + |r| <= |s|
    && s[i..i + |r|] == r
    && (forall k | 0 <= k < i :: IsSpace(s[k]))
    && (forall k | i + |r| <= k < |s| :: IsSpace(s[k]))
  }

  /** `s.strip()`: the text between the leading and the trailing whitespace. */
  function Strip(s: string): (r: string)
    ensures exists i :: StrippedAt(s, r, i)
    ensures r == "" || (!IsSpace(r[0]) && !IsSpace(r[|r| - 1]))
  {
    var i := SpaceEnd(s, 0);
    var j := SpaceStart(s, i, |s|);
    assert StrippedAt(s, s[i..j], i);
    s[i..j]
  }

  /** `c.lower()` on ASCII letters; every other character is kept. */
  function LowerChar(c: char): char {
    if 'A' <= c <= 'Z' then (c as int - 'A' as int + 'a' as int) as char else c
  }

  /** `s.lower()`, ASCII letters only. */
  function Lower(s: string): (r: string)
    ensures |r| == |s| && forall k | 0 <= k < |s| :: r[k] == LowerChar(s[k])
  {
    seq(|s|, k requires 0 <= k < |s| => LowerChar(s[k]))
  }

  predicate MatchesAt(s: string, pattern: string, i: nat)
    requires i + |pattern| <= |s|
  {
    s[i..i + |pattern|] == pattern
  }

  /** `pattern in s` */
  predicate Contains(s: string, pattern: string) {
    exists i: nat | i + |pattern| <= |s| :: MatchesAt(s, pattern, i)
  }
}
