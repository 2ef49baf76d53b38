/**
 The fragment of regular expressions the dashboard uses: literals, greedy `class*`
 and captured greedy `(class+)`, matched against the whole text with the leftmost
 greedy preference of Go's regexp package.
 */
module Regex {

  import opened Results

  datatype Class = Space | NonSpace | Hex

  datatype Atom = Lit(c: char) | Many(class_: Class) | Group(class_: Class)

  datatype Pattern = End | Then(atom: Atom, rest: Pattern)

  predicate IsSpace(c: char) {
    c == ' ' || c == '\t' || c == '\n' || c == '\r' || c == '\U{000C}'
  }

  predicate IsHex(c: char) {
    '0' <= c <= '9' || 'a' <= c <= 'f' || 'A' <= c <= 'F'
  }

  predicate In(class_: Class, c: char) {
    match class_
    case Space => IsSpace(c)
    case NonSpace => !IsSpace(c)
    case Hex => IsHex(c)
  }

  predicate AllIn(class_: Class, s: string) {
    forall i :: 0 <= i < |s| ==> In(class_, s[i])
  }

  /** The length of the longest prefix in the class. */
  function Longest(class_: Class, s: string): (n: nat)
    ensures n <= |s| && AllIn(class_, s[..n]) && (n < |s| ==> !In(class_, s[n]))
  {
    if s == "" || !In(class_, s[0]) then 0
    else
      var n := 1 + Longest(class_, s[1..]);
      assert forall i :: 0 < i < n ==> s[i] == s[1..][i - 1];
      n
  }

  /** The captures of the preferred match of the whole text, if there is a match. */
  function Match(p: Pattern, s: string): Option<seq<string>>
    decreases p, |s|, 0
  {
    match p
    case End => if s == "" then Some([]) else None
    case Then(Lit(c), rest) => if s != "" && s[0] == c then Match(rest, s[1..]) else None
    case Then(Many(class_), rest) =>
      if s != "" && In(class_, s[0]) then
        var more := Match(p, s[1..]);
        if more.Some? then more else Match(rest, s)
      else Match(rest, s)
    case Then(Group(class_), rest) => MatchGroup(rest, s, Longest(class_, s))
  }

  /** Tries capturing n characters first, then fewer. */
  function MatchGroup(rest: Pattern, s: string, n: nat): Option<seq<string>>
    requires n <= |s|
    decreases rest, |s| + 1, n
  {
    if n == 0 then None
    else
      var more := Match(rest, s[n..]);
      if more.Some? then Some([s[..n]] + more.value) else MatchGroup(rest, s, n - 1)
  }

  // ---------------------------------------------------------------- what a pattern means

  /** The text splits into pieces for the atoms, with these pieces captured. */
  ghost predicate Accepts(p: Pattern, s: string, captures: seq<string>) {
    match p
    case End => s == "" && captures == []
    case Then(Lit(c), rest) => s != "" && s[0] == c && Accepts(rest, s[1..], captures)
    case Then(Many(class_), rest) =>
      exists n :: 0 <= n <= |s| && AllIn(class_, s[..n]) && Accepts(rest, s[n..], captures)
    case Then(Group(class_), rest) =>
      && captures != [] && 0 < |captures[0]| <= |s| && AllIn(class_, captures[0])
      && s[..|captures[0]|] == captures[0] && Accepts(rest, s[|captures[0]|..], captures[1..])
  }

  lemma NoneIsAccepted(class_: Class, rest: Pattern, s: string, captures: seq<string>)
    requires Accepts(rest, s, captures)
    ensures Accepts(Then(Many(class_), rest), s, captures)
  {
    assert s[0..] == s && AllIn(class_, s[..0]);
  }

  lemma MoreIsAccepted(class_: Class, rest: Pattern, s: string, captures: seq<string>)
    requires s != "" && In(class_, s[0]) && Accepts(Then(Many(class_), rest), s[1..], captures)
    ensures Accepts(Then(Many(class_), rest), s, captures)
  {
    var tail := s[1..];
    var n :| 0 <= n <= |tail| && AllIn(class_, tail[..n]) && Accepts(rest, tail[n..], captures);
    var m := n + 1;
    forall i | 0 <= i < m ensures In(class_, s[..m][i]) {
      if i > 0 {
        assert s[..m][i] == tail[..n][i - 1];
      }
    }
    assert s[m..] == tail[n..];
    assert 0 <= m <= |s| && AllIn(class_, s[..m]) && Accepts(rest, s[m..], captures);
  }

  lemma {:induction false} MatchIsAccepted(p: Pattern, s: string)
    ensures Match(p, s).Some? ==> Accepts(p, s, Match(p, s).value)
    decreases p, |s|, 0
  {
    match p {
      case End =>
      case Then(Lit(c), rest) =>
        if s != "" {
          MatchIsAccepted(rest, s[1..]);
        }
      case Then(Many(class_), rest) =>
        MatchIsAccepted(rest, s);
        if s != "" && In(class_, s[0]) && Match(p, s[1..]).Some? {
          MatchIsAccepted(p, s[1..]);
          MoreIsAccepted(class_, rest, s, Match(p, s[1..]).value);
        } else if Match(rest, s).Some? {
          NoneIsAccepted(class_, rest, s, Match(rest, s).value);
        }
      case Then(Group(class_), rest) => GroupIsAccepted(class_, rest, s, Longest(class_, s));
    }
  }

  lemma {:induction false} GroupIsAccepted(class_: Class, rest: Pattern, s: string, n: nat)
    requires n <= |s| && AllIn(class_, s[..n])
    ensures MatchGroup(rest, s, n).Some? ==> Accepts(Then(Group(class_), rest), s, MatchGroup(rest, s, n).value)
    decreases rest, |s| + 1, n
  {
    if n == 0 {
    } else {
      MatchIsAccepted(rest, s[n..]);
      if Match(rest, s[n..]).Some? {
        var captures := [s[..n]] + Match(rest, s[n..]).value;
        assert captures[0] == s[..n] && captures[1..] == Match(rest, s[n..]).value;
      } else {
        assert forall i :: 0 <= i < n - 1 ==> s[..n - 1][i] == s[..n][i];
        GroupIsAccepted(class_, rest, s, n - 1);
      }
    }
  }

  lemma {:induction false} AcceptedIsMatched(p: Pattern, s: string, captures: seq<string>)
    requires Accepts(p, s, captures)
    ensures Match(p, s).Some?
    decreases p, |s|, 0
  {
    match p {
      case End =>
      case Then(Lit(c), rest) => AcceptedIsMatched(rest, s[1..], captures);
      case Then(Many(class_), rest) =>
        var n :| 0 <= n <= |s| && AllIn(class_, s[..n]) && Accepts(rest, s[n..], captures);
        if n == 0 {
          assert s[0..] == s;
          AcceptedIsMatched(rest, s, captures);
        } else {
          var tail := s[1..];
          assert tail[n - 1..] == s[n..] && s[..n][0] == s[0];
          assert tail[..n - 1] == s[..n][1..];
          AcceptedIsMatched(p, tail, captures);
        }
      case Then(Group(class_), rest) =>
        var n, longest := |captures[0]|, Longest(class_, s);
        assert captures[0] == s[..n];
        assert forall i :: 0 <= i < n ==> In(class_, s[i]) by {
          assert forall i :: 0 <= i < n ==> s[i] == captures[0][i];
        }
        GroupIsMatched(rest, s, longest, n, captures[1..]);
    }
  }

  lemma {:induction false} GroupIsMatched(rest: Pattern, s: string, m: nat, n: nat, captures: seq<string>)
    requires 0 < n <= m <= |s| && Accepts(rest, s[n..], captures)
    ensures MatchGroup(rest, s, m).Some?
    decreases rest, |s| + 1, m
  {
    if m == n {
      AcceptedIsMatched(rest, s[n..], captures);
    } else if Match(rest, s[m..]).None? {
      GroupIsMatched(rest, s, m - 1, n, captures);
    }
  }

  /** Backtracking loses nothing: a text matches exactly when it can be split for the pattern. */
  lemma MatchMeaning(p: Pattern, s: string)
    ensures Match(p, s).Some? <==> exists captures :: Accepts(p, s, captures)
    ensures Match(p, s).Some? ==> Accepts(p, s, Match(p, s).value)
  {
    MatchIsAccepted(p, s);
    if Match(p, s).Some? {
      var captures := Match(p, s).value;
      assert Accepts(p, s, captures);
    } else {
      forall captures | Accepts(p, s, captures) ensures false {
        AcceptedIsMatched(p, s, captures);
      }
    }
  }

  // ---------------------------------------------------------------- forced matches

  lemma SpaceMatches(rest: Pattern, s: string)
    requires s != "" && !IsSpace(s[0]) && Match(rest, s).Some?
    ensures Match(Then(Many(Space), rest), " " + s) == Match(rest, s)
  {
    assert (" " + s)[1..] == s;
    assert Match(Then(Many(Space), rest), s) == Match(rest, s);
  }

  lemma {:induction false} LongestIs(class_: Class, x: string, s: string)
    requires AllIn(class_, x) && (s == "" || !In(class_, s[0]))
    ensures Longest(class_, x + s) == |x|
    decreases x
  {
    if x == "" {
      assert x + s == s;
    } else {
      assert (x + s)[1..] == x[1..] + s;
      LongestIs(class_, x[1..], s);
    }
  }

  lemma GroupMatches(class_: Class, rest: Pattern, x: string, s: string)
    requires x != "" && AllIn(class_, x) && (s == "" || !In(class_, s[0])) && Match(rest, s).Some?
    ensures Match(Then(Group(class_), rest), x + s) == Some([x] + Match(rest, s).value)
  {
    LongestIs(class_, x, s);
    assert (x + s)[|x|..] == s && (x + s)[..|x|] == x;
  }

  lemma LiteralMatches(c: char, rest: Pattern, s: string)
    ensures Match(Then(Lit(c), rest), [c] + s) == Match(rest, s)
  {
    assert ([c] + s)[1..] == s;
  }

  /** The classes of the captures, in order. */
  function Groups(p: Pattern): seq<Class> {
    if p.End? then [] else (if p.atom.Group? then [p.atom.class_] else []) + Groups(p.rest)
  }

  /** Every capture is a non-empty word of its class. */
  predicate Fit(classes: seq<Class>, captures: seq<string>) {
    |captures| == |classes| && forall i :: 0 <= i < |captures| ==> captures[i] != "" && AllIn(classes[i], captures[i])
  }

  lemma {:induction false} CapturesFit(p: Pattern, s: string, captures: seq<string>)
    requires Accepts(p, s, captures)
    ensures Fit(Groups(p), captures)
    decreases p
  {
    match p {
      case End =>
      case Then(Lit(c), rest) => CapturesFit(rest, s[1..], captures);
      case Then(Many(class_), rest) =>
        var n :| 0 <= n <= |s| && AllIn(class_, s[..n]) && Accepts(rest, s[n..], captures);
        CapturesFit(rest, s[n..], captures);
      case Then(Group(class_), rest) =>
        CapturesFit(rest, s[|captures[0]|..], captures[1..]);
    }
  }

  /** A literal of the pattern that the text lacks rules a match out. */
  predicate Needs(p: Pattern, c: char) {
    p.Then? && (p.atom == Lit(c) || Needs(p.rest, c))
  }

  lemma {:induction false} MissingLiteral(p: Pattern, s: string, captures: seq<string>, c: char)
    requires Needs(p, c) && c !in s
    ensures !Accepts(p, s, captures)
    decreases p
  {
    if Accepts(p, s, captures) {
      match p {
        case Then(Lit(d), rest) =>
          if d != c {
            MissingLiteral(rest, s[1..], captures, c);
          }
        case Then(Many(class_), rest) =>
          var n :| 0 <= n <= |s| && AllIn(class_, s[..n]) && Accepts(rest, s[n..], captures);
          MissingLiteral(rest, s[n..], captures, c);
        case Then(Group(class_), rest) => MissingLiteral(rest, s[|captures[0]|..], captures[1..], c);
      }
    }
  }

  lemma NoMatchWithout(p: Pattern, s: string, c: char)
    requires Needs(p, c) && c !in s
    ensures Match(p, s).None?
  {
    MatchIsAccepted(p, s);
    if Match(p, s).Some? {
      MissingLiteral(p, s, Match(p, s).value, c);
    }
  }

  // ---------------------------------------------------------------- counting blanks

  function Gaps(s: string): nat {
    if s == "" then 0 else (if IsSpace(s[0]) then 1 else 0) + Gaps(s[1..])
  }

  /** No two blanks are neighbours. */
  predicate Isolated(s: string) {
    forall i :: 0 <= i < |s| - 1 ==> !IsSpace(s[i]) || !IsSpace(s[i + 1])
  }

  lemma {:induction false} GapsAdd(a: string, b: string)
    ensures Gaps(a + b) == Gaps(a) + Gaps(b)
    decreases a
  {
    if a == "" {
      assert a + b == b;
    } else {
      assert (a + b)[0] == a[0] && (a + b)[1..] == a[1..] + b;
      GapsAdd(a[1..], b);
    }
  }

  lemma {:induction false} NoGaps(s: string)
    requires AllIn(NonSpace, s)
    ensures Gaps(s) == 0
    decreases s
  {
    if s == "" {
    } else {
      NoGaps(s[1..]);
    }
  }

  lemma IsolatedJoin(a: string, b: string)
    requires Isolated(a) && Isolated(b) && (a == "" || !IsSpace(a[|a| - 1]))
    ensures Isolated(a + b)
  {
    var s := a + b;
    forall i | 0 <= i < |s| - 1 ensures !IsSpace(s[i]) || !IsSpace(s[i + 1]) {
      if i + 1 < |a| {
        assert s[i] == a[i] && s[i + 1] == a[i + 1];
      } else if i >= |a| {
        assert s[i] == b[i - |a|] && s[i + 1] == b[i + 1 - |a|];
      } else {
        assert s[i] == a[|a| - 1];
      }
    }
  }

  /** How many blanks a text without neighbouring ones, and without one at its end, has room for. */
  function Slots(p: Pattern): nat {
    if p.End? then 0 else (if p.atom.Many? && p.rest.Then? then 1 else 0) + Slots(p.rest)
  }

  /** Blanks are only ever matched by the starred space class. */
  predicate Spaced(p: Pattern) {
    p.Then? ==>
      && Spaced(p.rest)
      && match p.atom
         case Lit(c) => !IsSpace(c)
         case Many(class_) => class_ == Space
         case Group(class_) => class_ != Space
  }

  lemma {:induction false} GapsFit(p: Pattern, s: string, captures: seq<string>)
    requires Spaced(p) && Accepts(p, s, captures) && Isolated(s) && (s == "" || !IsSpace(s[|s| - 1]))
    ensures Gaps(s) <= Slots(p)
    decreases p, 0
  {
    match p {
      case End =>
      case Then(Lit(c), rest) =>
        assert forall i :: 0 <= i < |s[1..]| ==> s[1..][i] == s[i + 1];
        GapsFit(rest, s[1..], captures);
      case Then(Many(class_), rest) =>
        var n :| 0 <= n <= |s| && AllIn(class_, s[..n]) && Accepts(rest, s[n..], captures);
        ManyFits(rest, s, n, captures);
      case Then(Group(class_), rest) =>
        var n := |captures[0]|;
        GroupFits(class_, s, n, captures[0]);
        GapsFit(rest, s[n..], captures[1..]);
    }
  }

  lemma {:induction false} ManyFits(rest: Pattern, s: string, n: nat, captures: seq<string>)
    requires Spaced(rest) && n <= |s| && AllIn(Space, s[..n]) && Accepts(rest, s[n..], captures)
    requires Isolated(s) && (s == "" || !IsSpace(s[|s| - 1]))
    ensures Gaps(s) <= Slots(Then(Many(Space), rest))
    decreases rest, 1
  {
    forall i | 0 <= i < n ensures IsSpace(s[i]) {
      assert s[..n][i] == s[i];
    }
    assert |s| >= 2 ==> !IsSpace(s[0]) || !IsSpace(s[1]);
    assert n <= 1;
    assert forall i :: 0 <= i < |s[n..]| ==> s[n..][i] == s[i + n];
    GapsFit(rest, s[n..], captures);
    if n == 0 {
      assert s[0..] == s;
    }
  }

  lemma GroupFits(class_: Class, s: string, n: nat, captured: string)
    requires class_ != Space && 0 < n <= |s| && s[..n] == captured && AllIn(class_, captured)
    requires Isolated(s) && !IsSpace(s[|s| - 1])
    ensures Gaps(s) == Gaps(s[n..]) && Isolated(s[n..]) && (s[n..] == "" || !IsSpace(s[n..][|s[n..]| - 1]))
  {
    var rest := s[n..];
    assert s == captured + rest;
    NoGaps(captured) by {
      assert AllIn(NonSpace, captured);
    }
    GapsAdd(captured, rest);
    assert Isolated(rest) by {
      assert forall i :: 0 <= i < |rest| ==> rest[i] == s[i + n];
    }
  }

  /** Whatever the pattern starts with, it is no blank. */
  predicate StartsPlain(p: Pattern) {
    p.Then? && match p.atom
               case Lit(c) => !IsSpace(c)
               case Many(_) => false
               case Group(class_) => class_ != Space
  }

  /** How far a starred space class reaches in front of something that is no blank. */
  lemma SkipsBlanks(p: Pattern, s: string, captures: seq<string>) returns (n: nat)
    requires StartsPlain(p) && Accepts(Then(Many(Space), p), s, captures)
    ensures n < |s| && Accepts(p, s[n..], captures) && !IsSpace(s[n])
    ensures forall i :: 0 <= i < n ==> IsSpace(s[i])
    ensures p.atom.Lit? ==> s[n] == p.atom.c
  {
    n :| 0 <= n <= |s| && AllIn(Space, s[..n]) && Accepts(p, s[n..], captures);
    forall i | 0 <= i < n ensures IsSpace(s[i]) {
      assert s[..n][i] == s[i];
    }
  }

  /** One blank in front of something that is no blank is skipped. */
  lemma BlankSkipped(p: Pattern, t: string, captures: seq<string>)
    requires StartsPlain(p) && t != "" && !IsSpace(t[0]) && Accepts(Then(Many(Space), p), " " + t, captures)
    ensures Accepts(p, t, captures)
  {
    var s := " " + t;
    var n := SkipsBlanks(p, s, captures);
    assert s[0] == ' ' && s[1] == t[0];
    assert n == 1;
    assert s[1..] == t;
  }

  /** A capture followed by blanks and a literal stops where the literal can follow. */
  lemma CaptureStops(class_: Class, c: char, rest: Pattern, t: string, captures: seq<string>) returns (m: nat, k: nat)
    requires class_ != Space && !IsSpace(c)
    requires Accepts(Then(Group(class_), Then(Many(Space), Then(Lit(c), rest))), t, captures)
    ensures captures != [] && 0 < m < m + k + 1 <= |t| && captures[0] == t[..m] && AllIn(class_, t[..m])
    ensures forall i :: 0 <= i < m ==> In(class_, t[i])
    ensures forall i :: m <= i < m + k ==> IsSpace(t[i])
    ensures t[m + k] == c && Accepts(rest, t[m + k + 1..], captures[1..])
  {
    m := |captures[0]|;
    var u := t[m..];
    k := SkipsBlanks(Then(Lit(c), rest), u, captures[1..]);
    assert u[k..][1..] == t[m + k + 1..];
    forall i | 0 <= i < m ensures In(class_, t[i]) {
      assert t[..m][i] == t[i];
    }
    forall i | m <= i < m + k ensures IsSpace(t[i]) {
      assert u[i - m] == t[i];
    }
  }

  /** A word without the literal that must follow it is captured whole, between single blanks. */
  lemma WordForced(c: char, rest: Pattern, x: string, tail: string, captures: seq<string>)
    requires x != "" && AllIn(NonSpace, x) && c !in x && !IsSpace(c)
    requires Accepts(Then(Many(Space), Then(Group(NonSpace), Then(Many(Space), Then(Lit(c), rest)))), " " + (x + (" " + ([c] + tail))),
                     captures)
    ensures captures != [] && Accepts(rest, tail, captures[1..])
  {
    var t := x + (" " + ([c] + tail));
    assert t[0] == x[0];
    BlankSkipped(Then(Group(NonSpace), Then(Many(Space), Then(Lit(c), rest))), t, captures);
    var m, k := CaptureStops(NonSpace, c, rest, t, captures);
    forall i | 0 <= i < |x| ensures !IsSpace(t[i]) && t[i] != c {
      assert t[i] == x[i];
    }
    assert t[|x|] == ' ' && t[|x| + 1] == c;
    assert m <= |x| by {
      assert !In(NonSpace, t[|x|]);
    }
    var stop := t[m];
    assert IsSpace(stop) || stop == c;
    assert m == |x|;
    assert k == 1;
    assert t[|x| + 2..] == tail;
  }
}
