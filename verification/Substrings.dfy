/** strings.Index, strings.Split on newlines and strings.TrimRight, as the dashboard uses them. */
module Substrings {

  import opened Results

  predicate OccursAt(s: string, part: string, i: int) {
    0 <= i && i + |part| <= |s| && s[i..i + |part|] == part
  }

  predicate Occurs(s: string, part: string) {
    exists i :: 0 <= i <= |s| && OccursAt(s, part, i)
  }

  /** The first occurrence. */
  function IndexOf(s: string, part: string): (r: Option<nat>)
    ensures r.Some? ==> OccursAt(s, part, r.value) && forall i :: 0 <= i < r.value ==> !OccursAt(s, part, i)
    ensures r.None? ==> !Occurs(s, part)
  {
    IndexFrom(s, part, 0)
  }

  function IndexFrom(s: string, part: string, from: nat): (r: Option<nat>)
    ensures r.Some? ==> OccursAt(s, part, r.value) && forall i :: from <= i < r.value ==> !OccursAt(s, part, i)
    ensures r.None? ==> forall i :: from <= i ==> !OccursAt(s, part, i)
    decreases |s| + 1 - from
  {
    if from + |part| > |s| then None
    else if s[from..from + |part|] == part then Some(from)
    else IndexFrom(s, part, from + 1)
  }

  lemma IndexIs(s: string, part: string, at: nat)
    requires OccursAt(s, part, at)
    requires forall i :: 0 <= i < at ==> !OccursAt(s, part, i)
    ensures IndexOf(s, part) == Some(at)
  {
  }

  lemma Mismatch(s: string, part: string, i: int, k: nat)
    requires k < |part| && (0 <= i && i + k < |s| ==> s[i + k] != part[k])
    ensures !OccursAt(s, part, i)
  {
    if 0 <= i && i + |part| <= |s| {
      assert s[i..i + |part|][k] == s[i + k];
    }
  }

  /**
   What follows a text cannot complete an occurrence that begins inside it, when the
   character at the seam is not in the part.
   */
  lemma NotAcross(s: string, part: string, i: int, seam: nat)
    requires seam < |s| && s[seam] !in part && i <= seam < i + |part|
    ensures !OccursAt(s, part, i)
  {
    if i >= 0 && i + |part| <= |s| {
      assert s[i..i + |part|][seam - i] == s[seam];
    }
  }

  function Between(body: string, start: string, end: string): Option<string> {
    var s := IndexOf(body, start);
    if s.None? then None
    else
      var after := body[s.value + |start|..];
      var e := IndexOf(after, end);
      if e.None? then None else Some(after[..e.value])
  }

  function SplitLines(s: string): (lines: seq<string>)
    ensures |lines| > 0
  {
    if s == "" then [""]
    else
      var rest := SplitLines(s[1..]);
      if s[0] == '\n' then [""] + rest else [[s[0]] + rest[0]] + rest[1..]
  }

  lemma {:induction false} SplitFirstLine(line: string, rest: string)
    requires '\n' !in line
    ensures SplitLines(line + "\n" + rest) == [line] + SplitLines(rest)
    decreases line
  {
    var s := line + "\n" + rest;
    if line == "" {
      assert s[0] == '\n' && s[1..] == rest;
    } else {
      assert s[0] == line[0] && s[1..] == line[1..] + "\n" + rest;
      SplitFirstLine(line[1..], rest);
      assert line == [line[0]] + line[1..];
    }
  }

  /** Splitting and joining again gives the text back, and no line holds a newline. */
  function JoinLines(lines: seq<string>): string
    requires |lines| > 0
  {
    if |lines| == 1 then lines[0] else lines[0] + "\n" + JoinLines(lines[1..])
  }

  lemma {:induction false} SplitJoins(s: string)
    ensures JoinLines(SplitLines(s)) == s
    ensures forall i :: 0 <= i < |SplitLines(s)| ==> '\n' !in SplitLines(s)[i]
    decreases s
  {
    if s == "" {
    } else {
      SplitJoins(s[1..]);
      var lines, rest := SplitLines(s), SplitLines(s[1..]);
      if s[0] == '\n' {
        assert lines[1..] == rest;
        assert s == "" + "\n" + s[1..];
      } else {
        assert lines[1..] == rest[1..];
        assert s == [s[0]] + s[1..];
        if |rest| > 1 {
          assert JoinLines(lines) == [s[0]] + rest[0] + "\n" + JoinLines(rest[1..]);
        }
      }
    }
  }

  /** strings.TrimRight(s, "\r") */
  function TrimReturns(s: string): string {
    if s != "" && s[|s| - 1] == '\r' then TrimReturns(s[..|s| - 1]) else s
  }

  /** Only the returns at the end go, and all of them. */
  lemma {:induction false} OnlyReturnsAreTrimmed(s: string)
    ensures var t := TrimReturns(s);
            && t <= s && (t == "" || t[|t| - 1] != '\r') && forall i :: |t| <= i < |s| ==> s[i] == '\r'
    decreases s
  {
    if s == "" || s[|s| - 1] != '\r' {
    } else {
      OnlyReturnsAreTrimmed(s[..|s| - 1]);
    }
  }
}
