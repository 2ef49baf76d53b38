/**
 The dashboard's trend history (hack/dashboard/trend.go and the trend section of
 hack/dashboard/render.go): a table printed into the issue body and parsed back out
 of it on the next rebuild. Go's strings are sequences of bytes, written as chars.
 */
module Trend {

  import opened Results
  import opened Regex
  import opened Substrings

  const START := "<!-- trend-start -->"
  const END := "<!-- trend-end -->"
  const MAX_ROWS := 20
  const NA := "n/a"
  const SHORT_COMMIT := 7
  const HEADER := "| Date " + "| Commit " + "| Coverage " + "| Lint debt " + "| Tests |"
  const SEPARATOR := "|------" + "|--------" + "|----------" + "|-----------" + "|-------|"

  datatype Row = Row(date: string, commit: string, coverage: string, lintDebt: string, tests: string)

  /**
   What a rebuild is given. `before` is the text rendered ahead of the trend section;
   `coverage` is the total coverage in tenths of a percent, rounded.
   */
  datatype Inputs = Inputs(
    before: string,
    updated: string,
    commit: string,
    coverage: Option<nat>,
    lintDebt: Option<int>,
    tests: Option<int>)

  // ---------------------------------------------------------------- parsing

  /** `\s*(\S+)\s*\|` and what follows. */
  function CellThen(rest: Pattern): Pattern {
    Then(Many(Space), Then(Group(NonSpace), Then(Many(Space), Then(Lit('|'), rest))))
  }

  /** A cell of hexadecimal digits in backticks, and what follows. */
  function CommitThen(rest: Pattern): Pattern {
    Then(Many(Space), Then(Lit('`'), Then(Group(Hex), Then(Lit('`'), Then(Many(Space), Then(Lit('|'), rest))))))
  }

  function RowPattern(): Pattern {
    Then(Lit('|'), CellThen(CommitThen(CellThen(CellThen(CellThen(Then(Many(Space), Pattern.End)))))))
  }

  predicate Word(s: string) {
    s != "" && AllIn(NonSpace, s)
  }

  predicate HexWord(s: string) {
    s != "" && AllIn(Hex, s)
  }

  /** The rows the table can carry. */
  predicate WellFormed(row: Row) {
    Word(row.date) && HexWord(row.commit) && Word(row.coverage) && Word(row.lintDebt) && Word(row.tests)
  }

  /** What can be printed as a row at all: five words. */
  predicate Printable(row: Row) {
    Word(row.date) && Word(row.commit) && Word(row.coverage) && Word(row.lintDebt) && Word(row.tests)
  }

  lemma RowCaptures(s: string)
    requires Match(RowPattern(), s).Some?
    ensures var c := Match(RowPattern(), s).value;
            |c| == 5 && Word(c[0]) && HexWord(c[1]) && Word(c[2]) && Word(c[3]) && Word(c[4])
  {
    MatchIsAccepted(RowPattern(), s);
    CapturesFit(RowPattern(), s, Match(RowPattern(), s).value);
    RowGroups();
  }

  lemma RowGroups()
    ensures Groups(RowPattern()) == [NonSpace, Hex, NonSpace, NonSpace, NonSpace]
  {
    var last := Then(Many(Space), Pattern.End);
    var p1 := CellThen(last);
    var p2 := CellThen(p1);
    var p3 := CellThen(p2);
    var p4 := CommitThen(p3);
    assert Groups(Pattern.End) == [] && Groups(last) == [];
    assert Groups(p1) == [NonSpace];
    assert Groups(p2) == [NonSpace, NonSpace];
    assert Groups(p3) == [NonSpace, NonSpace, NonSpace];
    assert Groups(p4) == [Hex, NonSpace, NonSpace, NonSpace];
    var cells := CellThen(p4);
    assert Groups(cells) == [NonSpace, Hex, NonSpace, NonSpace, NonSpace];
    assert RowPattern() == Then(Lit('|'), cells) && Groups(Then(Lit('|'), cells)) == Groups(cells);
  }

  function ParseRow(line: string): (r: Option<Row>)
    ensures r.Some? ==> WellFormed(r.value)
  {
    var m := Match(RowPattern(), TrimReturns(line));
    if m.None? then None
    else
      RowCaptures(TrimReturns(line));
      Some(Row(m.value[0], m.value[1], m.value[2], m.value[3], m.value[4]))
  }

  function RowsOf(lines: seq<string>): seq<Row> {
    if lines == [] then []
    else
      var row := ParseRow(lines[0]);
      (if row.Some? then [row.value] else []) + RowsOf(lines[1..])
  }

  /** extractTrend */
  function Extract(body: string): seq<Row> {
    var between := Between(body, START, END);
    if between.None? then [] else RowsOf(SplitLines(between.value))
  }

  // ---------------------------------------------------------------- merging

  function Trim(rows: seq<Row>): seq<Row> {
    if |rows| > MAX_ROWS then rows[..MAX_ROWS] else rows
  }

  predicate HasCommit(rows: seq<Row>, commit: string) {
    exists i :: 0 <= i < |rows| && rows[i].commit == commit
  }

  /** mergeTrend */
  function Merge(rows: seq<Row>, row: Row): seq<Row> {
    Trim(if HasCommit(rows, row.commit) then rows else [row] + rows)
  }

  // ---------------------------------------------------------------- the new row

  predicate IsDigit(c: char) {
    '0' <= c <= '9'
  }

  predicate IsDate(s: string) {
    |s| == 10 && forall i :: 0 <= i < 10 ==> if i == 4 || i == 7 then s[i] == '-' else IsDigit(s[i])
  }

  function TrendDate(updated: string): (d: string)
    ensures Word(d) && (d == "n/a" || (IsDate(d) && d <= updated))
    ensures d == "n/a" <==> !exists date :: IsDate(date) && date <= updated
  {
    if |updated| < 10 || !IsDate(updated[..10]) then NA else updated[..10]
  }

  function ShortCommit(commit: string): (s: string)
    ensures s <= commit && |s| <= 7 && (s == commit || |s| == 7)
  {
    if |commit| <= SHORT_COMMIT then commit else commit[..SHORT_COMMIT]
  }

  /** Decimal digits */
  function Digits(n: nat): (s: string)
    ensures s != "" && forall i :: 0 <= i < |s| ==> IsDigit(s[i])
  {
    var last := ['0' + (n % 10) as char];
    if n < 10 then last else Digits(n / 10) + last
  }

  function Value(s: string): int
    requires forall i :: 0 <= i < |s| ==> IsDigit(s[i])
  {
    if s == "" then 0 else 10 * Value(s[..|s| - 1]) + (s[|s| - 1] as int - '0' as int)
  }

  /** The digits printed for a number are read as that number. */
  lemma {:induction false} DigitsAreRead(n: nat)
    ensures Value(Digits(n)) == n
    decreases n
  {
    var s := Digits(n);
    if n < 10 {
      assert s[..|s| - 1] == "";
    } else {
      DigitsAreRead(n / 10);
      assert s[..|s| - 1] == Digits(n / 10);
    }
  }

  /** strconv.Itoa */
  function Itoa(n: int): (s: string)
    ensures Word(s)
  {
    if n < 0 then "-" + Digits(-n) else Digits(n)
  }

  /** formatPercent of a percentage already rounded to tenths. */
  function FormatPercent(tenths: nat): (s: string)
    ensures Word(s)
  {
    Digits(tenths / 10) + "." + Digits(tenths % 10) + "%"
  }

  function CountText(n: Option<int>): (s: string)
    ensures Word(s)
  {
    if n.Some? then Itoa(n.value) else NA
  }

  predicate AddsRow(inputs: Inputs) {
    inputs.coverage.Some? && inputs.commit != ""
  }

  /** newTrendRow */
  function NewRow(inputs: Inputs): (row: Row)
    requires AddsRow(inputs)
    ensures WellFormed(row) <==> HexWord(ShortCommit(inputs.commit))
  {
    Row(TrendDate(inputs.updated), ShortCommit(inputs.commit), FormatPercent(inputs.coverage.value),
        CountText(inputs.lintDebt), CountText(inputs.tests))
  }

  /** A cell that gives a count, or that there is none. */
  predicate Tells(cell: string, n: Option<int>) {
    if n.None? then cell == "n/a"
    else if n.value >= 0 then (forall i :: 0 <= i < |cell| ==> IsDigit(cell[i])) && Value(cell) == n.value
    else cell != "" && cell[0] == '-' && (forall i :: 1 <= i < |cell| ==> IsDigit(cell[i])) && Value(cell[1..]) == -n.value
  }

  lemma CountTextTells(n: Option<int>)
    ensures Tells(CountText(n), n)
  {
    if n.Some? {
      var m := if n.value < 0 then -n.value else n.value;
      DigitsAreRead(m);
      assert n.value < 0 ==> CountText(n)[1..] == Digits(m);
    }
  }

  /** A percentage is printed as its whole part, a point, its tenth and the sign. */
  lemma PercentIsRead(tenths: nat) returns (whole: string, tenth: string)
    ensures FormatPercent(tenths) == whole + "." + tenth + "%"
    ensures |tenth| == 1 && (forall i :: 0 <= i < |whole| ==> IsDigit(whole[i])) && IsDigit(tenth[0])
    ensures 10 * Value(whole) + Value(tenth) == tenths
  {
    whole, tenth := Digits(tenths / 10), Digits(tenths % 10);
    DigitsAreRead(tenths / 10);
    DigitsAreRead(tenths % 10);
  }

  /** Each of the new row's cells tells its own input. */
  lemma NewRowTells(inputs: Inputs)
    requires inputs.coverage.Some? && inputs.commit != ""
    ensures var row := NewRow(inputs);
            && (row.date == "n/a" || row.date <= inputs.updated) && row.commit <= inputs.commit
            && (exists whole: string, tenth: string ::
                  && row.coverage == whole + "." + tenth + "%" && |tenth| == 1 && IsDigit(tenth[0])
                  && (forall i :: 0 <= i < |whole| ==> IsDigit(whole[i]))
                  && 10 * Value(whole) + Value(tenth) == inputs.coverage.value)
            && Tells(row.lintDebt, inputs.lintDebt) && Tells(row.tests, inputs.tests)
  {
    CountTextTells(inputs.lintDebt);
    CountTextTells(inputs.tests);
    var whole, tenth := PercentIsRead(inputs.coverage.value);
  }

  function NextRows(rows: seq<Row>, inputs: Inputs): seq<Row> {
    if AddsRow(inputs) then Merge(rows, NewRow(inputs)) else rows
  }

  // ---------------------------------------------------------------- printing

  function Cell(x: string): string {
    " " + x + " |"
  }

  function CommitCell(x: string): string {
    " `" + x + "` |"
  }

  function PrintRow(row: Row): string {
    "|" + (Cell(row.date) + (CommitCell(row.commit) + (Cell(row.coverage) + (Cell(row.lintDebt) + Cell(row.tests)))))
  }

  lemma CellOpens(x: string, rest: string)
    ensures Cell(x) + rest == " " + (x + (" |" + rest))
    ensures CommitCell(x) + rest == " `" + (x + ("` |" + rest))
  {
  }

  lemma HeaderNamesTheCells()
    ensures HEADER == "| Date | Commit | Coverage | Lint debt | Tests |"
  {
  }

  /** The cells stand in the order of the header. */
  lemma CellsFollowTheHeader(row: Row)
    ensures PrintRow(row)
            == "|" + (" " + (row.date + (" |" + (" `" + (row.commit + ("` |" + (" " + (row.coverage
               + (" |" + (" " + (row.lintDebt + (" |" + (" " + row.tests + " |")))))))))))))
  {
    var s1 := Cell(row.tests);
    var s2 := Cell(row.lintDebt) + s1;
    var s3 := Cell(row.coverage) + s2;
    var s4 := CommitCell(row.commit) + s3;
    CellOpens(row.lintDebt, s1);
    CellOpens(row.coverage, s2);
    CellOpens(row.commit, s3);
    CellOpens(row.date, s4);
  }

  function PrintRows(rows: seq<Row>): string {
    if rows == [] then "" else PrintRow(rows[0]) + "\n" + PrintRows(rows[1..])
  }

  function Table(rows: seq<Row>): string {
    "\n" + (HEADER + "\n" + (SEPARATOR + "\n" + PrintRows(rows)))
  }

  /** renderTrendSection */
  function Section(rows: seq<Row>): string {
    "## Trend\n" + (START + (Table(rows) + (END + "\n")))
  }

  /** The body of one rebuild. */
  function Rebuild(prevBody: string, inputs: Inputs): string {
    inputs.before + Section(NextRows(Extract(prevBody), inputs))
  }

  // ---------------------------------------------------------------- a printed row parses back

  /** `\s*\|` and what follows, against a blank and a bar. */
  lemma BarMatches(rest: Pattern, tail: string)
    requires Match(rest, tail).Some?
    ensures Match(Then(Many(Space), Then(Lit('|'), rest)), " |" + tail) == Match(rest, tail)
  {
    LiteralMatches('|', rest, tail);
    SpaceMatches(Then(Lit('|'), rest), ['|'] + tail);
    assert " |" + tail == " " + (['|'] + tail);
  }

  lemma CellMatches(rest: Pattern, x: string, tail: string)
    requires Word(x) && Match(rest, tail).Some?
    ensures Match(CellThen(rest), Cell(x) + tail) == Some([x] + Match(rest, tail).value)
  {
    BarMatches(rest, tail);
    var gap := Then(Many(Space), Then(Lit('|'), rest));
    WordMatches(gap, x, " |" + tail);
    assert Cell(x) + tail == " " + (x + (" |" + tail));
  }

  lemma WordMatches(gap: Pattern, x: string, tail: string)
    requires Word(x) && tail != "" && IsSpace(tail[0]) && Match(gap, tail).Some?
    ensures Match(Then(Many(Space), Then(Group(NonSpace), gap)), " " + (x + tail)) == Some([x] + Match(gap, tail).value)
  {
    GroupMatches(NonSpace, gap, x, tail);
    assert (x + tail)[0] == x[0];
    SpaceMatches(Then(Group(NonSpace), gap), x + tail);
  }

  lemma CommitMatches(rest: Pattern, x: string, tail: string)
    requires HexWord(x) && Match(rest, tail).Some?
    ensures Match(CommitThen(rest), CommitCell(x) + tail) == Some([x] + Match(rest, tail).value)
  {
    BarMatches(rest, tail);
    var gap := Then(Many(Space), Then(Lit('|'), rest));
    TickedMatches(gap, x, " |" + tail);
    assert CommitCell(x) + tail == " " + (['`'] + (x + (['`'] + (" |" + tail))));
  }

  lemma TickedMatches(gap: Pattern, x: string, tail: string)
    requires HexWord(x) && Match(gap, tail).Some?
    ensures Match(Then(Many(Space), Then(Lit('`'), Then(Group(Hex), Then(Lit('`'), gap)))), " " + (['`'] + (x + (['`'] + tail))))
            == Some([x] + Match(gap, tail).value)
  {
    var closed := ['`'] + tail;
    LiteralMatches('`', gap, tail);
    GroupMatches(Hex, Then(Lit('`'), gap), x, closed);
    LiteralMatches('`', Then(Group(Hex), Then(Lit('`'), gap)), x + closed);
    SpaceMatches(Then(Lit('`'), Then(Group(Hex), Then(Lit('`'), gap))), ['`'] + (x + closed));
  }

  lemma RowParsesBack(row: Row)
    requires WellFormed(row)
    ensures ParseRow(PrintRow(row)) == Some(row)
  {
    var last := Then(Many(Space), Pattern.End);
    var p1 := CellThen(last);
    var p2 := CellThen(p1);
    var p3 := CellThen(p2);
    var p4 := CommitThen(p3);
    var s1 := Cell(row.tests);
    var s2 := Cell(row.lintDebt) + s1;
    var s3 := Cell(row.coverage) + s2;
    var s4 := CommitCell(row.commit) + s3;
    var s5 := Cell(row.date) + s4;
    assert Match(last, "") == Some([]);
    assert s1 + "" == s1;
    CellMatches(last, row.tests, "");
    CellMatches(p1, row.lintDebt, s1);
    CellMatches(p2, row.coverage, s2);
    CommitMatches(p3, row.commit, s3);
    CellMatches(p4, row.date, s4);
    var line := PrintRow(row);
    assert line == "|" + s5 && line[1..] == s5;
    assert TrimReturns(line) == line;
    assert Match(RowPattern(), line) == Match(CellThen(p4), s5);
    assert Match(RowPattern(), line).value == [row.date, row.commit, row.coverage, row.lintDebt, row.tests];
  }

  // ---------------------------------------------------------------- no marker in the table

  /** The gap between "<!--" and "trend" in the end marker; no table text has one. */
  predicate NoGap(s: string) {
    forall k :: 0 < k < |s| - 1 && s[k] == ' ' ==> s[k - 1] != '-' || s[k + 1] != 't'
  }

  /** The blank at k has a bar before or after it. */
  predicate PaddedAt(s: string, k: nat)
    requires k < |s|
  {
    (k > 0 && s[k - 1] == '|') || (k + 1 < |s| && s[k + 1] == '|')
  }

  /** Every blank has a bar beside it. */
  predicate Padded(s: string) {
    forall k: nat :: k < |s| && s[k] == ' ' ==> PaddedAt(s, k)
  }

  lemma CellBlanks(x: string, j: nat)
    requires ' ' !in x && j < |Cell(x)|
    ensures Cell(x)[j] == ' ' ==> j == 0 || j == |x| + 1
    ensures Cell(x)[|x| + 2] == '|'
  {
    if 0 < j <= |x| {
      assert Cell(x)[j] == x[j - 1];
    }
  }

  lemma PaddedBefore(a: string, b: string, k: nat)
    requires Padded(a) && k < |a| && a[k] == ' '
    ensures PaddedAt(a + b, k)
  {
    var s := a + b;
    if k > 0 && a[k - 1] == '|' {
      assert s[k - 1] == '|';
    } else {
      assert a[k + 1] == '|' && s[k + 1] == '|';
    }
  }

  lemma PaddedWithin(a: string, x: string, j: nat)
    requires a != "" && a[|a| - 1] == '|' && ' ' !in x && j < |Cell(x)| && Cell(x)[j] == ' '
    ensures PaddedAt(a + Cell(x), |a| + j)
  {
    var s, cell := a + Cell(x), Cell(x);
    CellBlanks(x, j);
    if j == 0 {
      assert s[|a| - 1] == '|';
    } else {
      assert s[|a| + j + 1] == cell[j + 1];
    }
  }

  lemma PaddedCell(a: string, x: string)
    requires Padded(a) && a != "" && a[|a| - 1] == '|' && ' ' !in x
    ensures Padded(a + Cell(x))
  {
    var s, cell := a + Cell(x), Cell(x);
    forall k: nat | k < |s| && s[k] == ' ' ensures PaddedAt(s, k) {
      if k < |a| {
        assert a[k] == s[k];
        PaddedBefore(a, cell, k);
      } else {
        assert cell[k - |a|] == s[k];
        PaddedWithin(a, x, k - |a|);
      }
    }
  }

  lemma PaddedHasNoGap(s: string)
    requires Padded(s)
    ensures NoGap(s + "\n")
  {
    var line := s + "\n";
    forall k | 0 < k < |line| - 1 && line[k] == ' ' ensures line[k - 1] != '-' || line[k + 1] != 't' {
      assert PaddedAt(s, k);
      assert line[k - 1] == s[k - 1];
      assert k + 1 < |s| ==> line[k + 1] == s[k + 1];
    }
  }

  lemma PrintedRowIsCells(row: Row)
    ensures PrintRow(row) == "|" + Cell(row.date) + Cell("`" + row.commit + "`") + Cell(row.coverage) + Cell(row.lintDebt)
                             + Cell(row.tests)
  {
    assert CommitCell(row.commit) == Cell("`" + row.commit + "`");
  }

  lemma NoBlanks(row: Row)
    requires Printable(row)
    ensures ' ' !in row.date && ' ' !in "`" + row.commit + "`" && ' ' !in row.coverage
    ensures ' ' !in row.lintDebt && ' ' !in row.tests
  {
    assert IsSpace(' ');
  }

  lemma PrintedRowIsPadded(row: Row)
    requires Printable(row)
    ensures Padded(PrintRow(row))
  {
    NoBlanks(row);
    PrintedRowIsCells(row);
    var s1 := "|" + Cell(row.date);
    var s2 := s1 + Cell("`" + row.commit + "`");
    var s3 := s2 + Cell(row.coverage);
    var s4 := s3 + Cell(row.lintDebt);
    PaddedCell("|", row.date);
    PaddedCell(s1, "`" + row.commit + "`");
    PaddedCell(s2, row.coverage);
    PaddedCell(s3, row.lintDebt);
    PaddedCell(s4, row.tests);
  }

  lemma PrintedRowHasNoGap(row: Row)
    requires Printable(row)
    ensures NoGap(PrintRow(row) + "\n")
  {
    PrintedRowIsPadded(row);
    PaddedHasNoGap(PrintRow(row));
  }

  lemma {:induction false} PrintedRowsHaveNoGap(rows: seq<Row>)
    requires forall i :: 0 <= i < |rows| ==> Printable(rows[i])
    ensures NoGap(PrintRows(rows)) && (rows != [] ==> EndsLine(PrintRows(rows)))
    decreases rows
  {
    if rows == [] {
    } else {
      PrintedRowHasNoGap(rows[0]);
      PrintedRowsHaveNoGap(rows[1..]);
    }
  }

  predicate EndsLine(s: string) {
    s != "" && s[|s| - 1] == '\n'
  }

  predicate Plain(s: string, c: char) {
    '\n' !in s && '`' !in s && c !in s
  }

  lemma HeaderText()
    ensures Plain(HEADER, '-')
  {
    assert Plain("| Date ", '-') && Plain("| Commit ", '-') && Plain("| Coverage ", '-');
    assert Plain("| Lint debt ", '-') && Plain("| Tests |", '-');
  }

  lemma SeparatorText()
    ensures Plain(SEPARATOR, ' ')
  {
    assert Plain("|------", ' ') && Plain("|--------", ' ') && Plain("|----------", ' ');
    assert Plain("|-----------", ' ') && Plain("|-------|", ' ');
  }

  lemma TableHasNoGap(rows: seq<Row>)
    requires forall i :: 0 <= i < |rows| ==> Printable(rows[i])
    ensures NoGap(Table(rows)) && EndsLine(Table(rows))
  {
    HeaderText();
    SeparatorText();
    PrintedRowsHaveNoGap(rows);
    var rest := SEPARATOR + "\n" + PrintRows(rows);
  }

  lemma NoEndWithin(t: string, i: nat)
    requires NoGap(t) && i + |END| <= |t|
    ensures !OccursAt(t, END, i)
  {
    var k := if t[i + 4] != ' ' then 4 else if t[i + 3] != '-' then 3 else 5;
    Mismatch(t, END, i, k);
  }

  /** The end marker first occurs right after a table. */
  lemma EndIsFound(t: string, s: string)
    requires NoGap(t) && EndsLine(t) && s == t + (END + "\n")
    ensures IndexOf(s, END) == Some(|t|)
  {
    forall i | 0 <= i < |t| ensures !OccursAt(s, END, i) {
      if i + |END| >= |t| {
        NotAcross(s, END, i, |t| - 1);
      } else {
        NoEndWithin(t, i);
        assert s[i..i + |END|] == t[i..i + |END|];
      }
    }
    assert s[|t|..] == END + "\n" && s[|t|..|t| + |END|] == (END + "\n")[..|END|] == END;
    IndexIs(s, END, |t|);
  }

  /** The start marker first occurs right after the section's heading. */
  lemma StartIsFound(before: string, rest: string, s: string)
    requires !Occurs(before, START) && s == before + ("## Trend\n" + (START + rest))
    ensures IndexOf(s, START) == Some(|before| + 9)
  {
    var heading := "## Trend\n";
    var at := |before| + 9;
    forall i | 0 <= i < at ensures !OccursAt(s, START, i) {
      if i >= |before| {
        assert s[i] == heading[i - |before|];
        Mismatch(s, START, i, 0);
      } else if i + |START| > |before| {
        assert s[|before|] == '#';
        NotAcross(s, START, i, |before|);
      } else {
        assert s[i..i + |START|] == before[i..i + |START|];
        assert !OccursAt(before, START, i);
      }
    }
    assert s[at..] == START + rest && s[at..at + |START|] == (START + rest)[..|START|] == START;
    IndexIs(s, START, at);
  }

  // ---------------------------------------------------------------- the round trip

  /** A row whose line parses, or is sure not to. */
  predicate Legible(row: Row) {
    Printable(row) && (HexWord(row.commit) || '|' !in row.date)
  }

  /** The rows that are read back. */
  function Readable(rows: seq<Row>): seq<Row> {
    if rows == [] then []
    else (if WellFormed(rows[0]) then [rows[0]] else []) + Readable(rows[1..])
  }

  lemma {:induction false} AllReadable(rows: seq<Row>)
    requires forall i :: 0 <= i < |rows| ==> WellFormed(rows[i])
    ensures Readable(rows) == rows && forall i :: 0 <= i < |rows| ==> Legible(rows[i])
    decreases rows
  {
    if rows == [] {
    } else {
      AllReadable(rows[1..]);
      assert forall i :: 0 < i < |rows| ==> rows[i] == rows[1..][i - 1];
    }
  }

  lemma NoNewline(row: Row)
    requires Printable(row)
    ensures '\n' !in PrintRow(row)
  {
    assert IsSpace('\n');
    assert '\n' !in row.date && '\n' !in row.commit && '\n' !in row.coverage && '\n' !in row.lintDebt && '\n' !in row.tests;
  }

  lemma {:induction false} PrintedRowsParseBack(rows: seq<Row>)
    requires forall i :: 0 <= i < |rows| ==> Legible(rows[i])
    ensures RowsOf(SplitLines(PrintRows(rows))) == Readable(rows)
    decreases rows
  {
    if rows == [] {
      assert SplitLines("") == [""];
      Headless("");
    } else {
      var line, rest := PrintRow(rows[0]), PrintRows(rows[1..]);
      NoNewline(rows[0]);
      SplitFirstLine(line, rest);
      if WellFormed(rows[0]) {
        RowParsesBack(rows[0]);
      } else {
        BadCommitIsNoRow(rows[0]);
      }
      PrintedRowsParseBack(rows[1..]);
      assert ([line] + SplitLines(rest))[1..] == SplitLines(rest);
    }
  }

  /** The three cells after the commit, and the end of the line. */
  function Cells(): Pattern {
    CellThen(CellThen(CellThen(Then(Many(Space), Pattern.End))))
  }

  lemma CellGaps(x: string)
    requires Word(x)
    ensures Gaps(Cell(x)) == 2 && Isolated(Cell(x)) && !IsSpace(Cell(x)[|Cell(x)| - 1])
  {
    assert IsSpace(' ') && !IsSpace('|');
    NoGaps(x);
    GapsAdd(" ", x);
    GapsAdd(" " + x, " |");
    assert " |"[1..] == "|" && Gaps("|") == 0 + Gaps("|"[1..]) && " "[1..] == "";
    var s := Cell(x);
    forall i | 0 <= i < |s| - 1 ensures !IsSpace(s[i]) || !IsSpace(s[i + 1]) {
      if i == 0 {
        assert s[1] == x[0];
      } else if i <= |x| {
        assert s[i] == x[i - 1];
      } else {
        assert s[i + 1] == '|';
      }
    }
  }

  /** What is left of a bad commit after its first backtick and bar leaves too many blanks for three cells. */
  lemma TooManyBlanks(y: string, coverage: string, lintDebt: string, tests: string, captures: seq<string>)
    requires AllIn(NonSpace, y) && Word(coverage) && Word(lintDebt) && Word(tests)
    ensures !Accepts(Cells(), y + ("` |" + (Cell(coverage) + (Cell(lintDebt) + Cell(tests)))), captures)
  {
    var s3 := Cell(tests);
    var s2 := Cell(lintDebt) + s3;
    var s1 := Cell(coverage) + s2;
    CellGaps(tests);
    CellGaps(lintDebt);
    CellGaps(coverage);
    GapsAdd(Cell(lintDebt), s3);
    IsolatedJoin(Cell(lintDebt), s3);
    GapsAdd(Cell(coverage), s2);
    IsolatedJoin(Cell(coverage), s2);
    assert Gaps(s1) == 6;
    TickGaps(y, s1);
    var s := y + ("` |" + s1);
    assert s[|s| - 1] == s3[|s3| - 1];
    if Accepts(Cells(), s, captures) {
      GapsFit(Cells(), s, captures);
    }
  }

  lemma TickGaps(y: string, tail: string)
    requires AllIn(NonSpace, y) && Isolated(tail)
    ensures Gaps(y + ("` |" + tail)) == 1 + Gaps(tail) && Isolated(y + ("` |" + tail))
  {
    var tick := "` |";
    assert IsSpace(' ') && !IsSpace('`') && !IsSpace('|');
    assert tick[1..] == " |" && tick[1..][1..] == "|" && tick[1..][1..][1..] == "";
    assert Gaps("|") == 0 && Gaps(" |") == 1 && Gaps(tick) == 1;
    NoGaps(y);
    GapsAdd(tick, tail);
    GapsAdd(y, tick + tail);
    assert Isolated(tick);
    IsolatedJoin(tick, tail);
    assert Isolated(y) && (y == "" || !IsSpace(y[|y| - 1]));
    IsolatedJoin(y, tick + tail);
  }

  /** Where the hexadecimal run of a commit cell stops: before a backtick. */
  lemma HexRun(closed: Pattern, x: string, rest: string, captures: seq<string>) returns (m: nat)
    requires Word(x) && !HexWord(x) && rest != "" && rest[0] == '`'
    requires Accepts(Then(Group(Hex), Then(Lit('`'), closed)), x + rest, captures)
    ensures captures != [] && 0 < m < |x| && x[m] == '`' && Accepts(closed, x[m + 1..] + rest, captures[1..])
  {
    var t := x + rest;
    m := |captures[0]|;
    assert captures[0] == t[..m];
    forall i | 0 <= i < m ensures IsHex(t[i]) {
      assert t[..m][i] == t[i];
    }
    forall i | 0 <= i < |x| ensures t[i] == x[i] {
    }
    assert t[|x|] == '`' && !IsHex(t[|x|]);
    assert m <= |x|;
    assert exists i :: 0 <= i < |x| && !IsHex(x[i]);
    assert m < |x|;
    assert t[m..][1..] == x[m + 1..] + rest;
  }

  /** After a backtick inside the commit, only a bar inside it can follow. */
  lemma BarFollows(rest: Pattern, x: string, tail: string, captures: seq<string>)
    requires AllIn(NonSpace, x) && tail != "" && tail[0] == '`'
    requires Accepts(Then(Many(Space), Then(Lit('|'), rest)), x + tail, captures)
    ensures x != "" && x[0] == '|' && Accepts(rest, x[1..] + tail, captures)
  {
    var u := x + tail;
    var k := SkipsBlanks(Then(Lit('|'), rest), u, captures);
    assert u[0] == if x == "" then '`' else x[0];
    assert !IsSpace(u[0]);
    assert k == 0 && u[0..] == u && u[0] == '|';
    assert u[1..] == x[1..] + tail;
  }

  /** A commit cell that is not hexadecimal can only be matched up to a backtick and a bar inside it. */
  lemma BadCommitSplits(x: string, tail: string, captures: seq<string>) returns (y: string)
    requires Word(x) && !HexWord(x) && Accepts(CommitThen(Cells()), CommitCell(x) + tail, captures)
    ensures AllIn(NonSpace, y) && captures != [] && Accepts(Cells(), y + ("` |" + tail), captures[1..])
  {
    var closed := Then(Many(Space), Then(Lit('|'), Cells()));
    var hex := Then(Group(Hex), Then(Lit('`'), closed));
    var rest := "` |" + tail;
    var t := x + rest;
    BlankSkipped(Then(Lit('`'), hex), "`" + t, captures) by {
      assert CommitCell(x) + tail == " " + ("`" + t);
    }
    assert ("`" + t)[1..] == t;
    var m := HexRun(closed, x, rest, captures);
    var z := x[m + 1..];
    assert AllIn(NonSpace, z) by {
      assert forall i :: 0 <= i < |z| ==> z[i] == x[i + m + 1];
    }
    BarFollows(Cells(), z, rest, captures[1..]);
    y := z[1..];
    assert forall i :: 0 <= i < |y| ==> y[i] == z[i + 1];
  }

  /** A row whose commit is not hexadecimal is printed as a line that is no row. */
  lemma BadCommitIsNoRow(row: Row)
    requires Printable(row) && !HexWord(row.commit) && '|' !in row.date
    ensures ParseRow(PrintRow(row)).None?
  {
    var line := PrintRow(row);
    assert TrimReturns(line) == line;
    MatchIsAccepted(RowPattern(), line);
    if Match(RowPattern(), line).Some? {
      var captures := Match(RowPattern(), line).value;
      BadCommitIsRefused(row, captures);
    }
  }

  lemma BadCommitIsRefused(row: Row, captures: seq<string>)
    requires Printable(row) && !HexWord(row.commit) && '|' !in row.date
    ensures !Accepts(RowPattern(), PrintRow(row), captures)
  {
    if Accepts(RowPattern(), PrintRow(row), captures) {
      var line := PrintRow(row);
      var cells := Cell(row.coverage) + (Cell(row.lintDebt) + Cell(row.tests));
      var tail := CommitCell(row.commit) + cells;
      assert line[1..] == Cell(row.date) + tail;
      assert RowPattern() == Then(Lit('|'), CellThen(CommitThen(Cells())));
      assert Cell(row.date) + tail == " " + (row.date + (" " + (['|'] + tail)));
      WordForced('|', CommitThen(Cells()), row.date, tail, captures);
      var y := BadCommitSplits(row.commit, cells, captures[1..]);
      TooManyBlanks(y, row.coverage, row.lintDebt, row.tests, captures[1..][1..]);
    }
  }

  /** A line without a backtick is no row. */
  lemma Headless(line: string)
    requires '`' !in line
    ensures ParseRow(line).None?
  {
    NoNewCharacters(line);
    var last := Then(Many(Space), Pattern.End);
    var commit := CommitThen(CellThen(CellThen(CellThen(last))));
    assert Needs(commit.rest, '`');
    assert Needs(commit, '`');
    var gap := Then(Many(Space), Then(Lit('|'), commit));
    assert Needs(gap.rest, '`');
    assert Needs(Then(Group(NonSpace), gap), '`');
    assert Needs(CellThen(commit), '`');
    NoMatchWithout(RowPattern(), TrimReturns(line), '`');
  }

  lemma {:induction false} NoNewCharacters(line: string)
    ensures TrimReturns(line) <= line
    decreases line
  {
    if line == "" || line[|line| - 1] != '\r' {
    } else {
      NoNewCharacters(line[..|line| - 1]);
    }
  }

  lemma PlainLine(line: string, rest: string)
    requires '\n' !in line && '`' !in line
    ensures RowsOf(SplitLines(line + "\n" + rest)) == RowsOf(SplitLines(rest))
  {
    SplitFirstLine(line, rest);
    Headless(line);
    assert ([line] + SplitLines(rest))[1..] == SplitLines(rest);
  }

  lemma TableIsRows(rows: seq<Row>)
    ensures RowsOf(SplitLines(Table(rows))) == RowsOf(SplitLines(PrintRows(rows)))
  {
    var printed := PrintRows(rows);
    var body := SEPARATOR + "\n" + printed;
    var headed := HEADER + "\n" + body;
    assert Table(rows) == "" + "\n" + headed;
    HeaderText();
    SeparatorText();
    PlainLine("", headed);
    PlainLine(HEADER, body);
    PlainLine(SEPARATOR, printed);
  }

  lemma TableParsesBack(rows: seq<Row>)
    requires forall i :: 0 <= i < |rows| ==> Legible(rows[i])
    ensures RowsOf(SplitLines(Table(rows))) == Readable(rows)
  {
    TableIsRows(rows);
    PrintedRowsParseBack(rows);
  }

  /** The markers around a table are found again. */
  lemma BetweenIsTable(before: string, t: string)
    requires !Occurs(before, START) && NoGap(t) && EndsLine(t)
    ensures Between(before + ("## Trend\n" + (START + (t + (END + "\n")))), START, END) == Some(t)
  {
    var rest := t + (END + "\n");
    var body := before + ("## Trend\n" + (START + rest));
    StartIsFound(before, rest, body);
    EndIsFound(t, rest);
    assert body[|before| + 9 + |START|..] == rest by {
      assert body[|before| + 9..] == START + rest;
    }
    assert rest[..|t|] == t;
  }

  /** Whatever precedes the section, the rows of a printed table that can be read are read back. */
  lemma SectionReadsBack(before: string, rows: seq<Row>)
    requires !Occurs(before, START)
    requires forall i :: 0 <= i < |rows| ==> Legible(rows[i])
    ensures Extract(before + Section(rows)) == Readable(rows)
  {
    var body, table := before + Section(rows), Table(rows);
    TableHasNoGap(rows);
    BetweenIsTable(before, table);
    assert Between(body, START, END) == Some(table);
    ExtractIs(body, table);
    TableParsesBack(rows);
  }

  lemma ExtractIs(body: string, t: string)
    requires Between(body, START, END) == Some(t)
    ensures Extract(body) == RowsOf(SplitLines(t))
  {
  }

  /** Well-formed rows come back one for one. */
  lemma SectionRoundTrip(before: string, rows: seq<Row>)
    requires !Occurs(before, START)
    requires forall i :: 0 <= i < |rows| ==> WellFormed(rows[i])
    ensures Extract(before + Section(rows)) == rows
  {
    AllReadable(rows);
    SectionReadsBack(before, rows);
  }

  ghost predicate AllWellFormed(rows: seq<Row>) {
    forall i :: 0 <= i < |rows| ==> WellFormed(rows[i])
  }

  lemma {:induction false} RowsOfAreWellFormed(lines: seq<string>)
    ensures AllWellFormed(RowsOf(lines))
    decreases lines
  {
    if lines == [] {
    } else {
      RowsOfAreWellFormed(lines[1..]);
    }
  }

  /** Whatever a previous body holds, hand-edited or not, only well-formed rows come out of it. */
  lemma ExtractedIsWellFormed(body: string)
    ensures AllWellFormed(Extract(body))
  {
    var between := Between(body, START, END);
    if between.Some? {
      RowsOfAreWellFormed(SplitLines(between.value));
    }
  }

  predicate CommitIsHex(inputs: Inputs) {
    AddsRow(inputs) ==> HexWord(ShortCommit(inputs.commit))
  }

  /**
   Extracting the rows of a rebuilt body gives the merge of the previous body's rows
   with the new row, exactly when the shortened commit is hexadecimal.
   */
  lemma RebuildRoundTrip(prevBody: string, inputs: Inputs)
    requires !Occurs(inputs.before, START)
    ensures Extract(Rebuild(prevBody, inputs)) == NextRows(Extract(prevBody), inputs) <==> CommitIsHex(inputs)
  {
    var rows := Extract(prevBody);
    ExtractedIsWellFormed(prevBody);
    if CommitIsHex(inputs) {
      SectionRoundTrip(inputs.before, NextRows(rows, inputs));
    } else {
      var row := NewRow(inputs);
      assert !HasCommit(rows, row.commit);
      assert NextRows(rows, inputs)[0] == row;
      ExtractedIsWellFormed(Rebuild(prevBody, inputs));
    }
  }

  /** The oldest row of a full table is pushed off by any new one. */
  function MakeRoom(rows: seq<Row>): seq<Row> {
    if |rows| < 20 then rows else rows[..19]
  }

  /**
   A commit of non-blank characters that is not hexadecimal does not come back: its row
   is lost at the next rebuild, and in a full table so is the oldest row, which it has
   pushed off.
   */
  lemma BadCommitIsLost(prevBody: string, inputs: Inputs)
    requires !Occurs(inputs.before, START) && !CommitIsHex(inputs) && Word(ShortCommit(inputs.commit))
    ensures Extract(Rebuild(prevBody, inputs)) == MakeRoom(Extract(prevBody))
  {
    var rows, row := Extract(prevBody), NewRow(inputs);
    ExtractedIsWellFormed(prevBody);
    assert !HasCommit(rows, row.commit);
    var kept := MakeRoom(rows);
    var printed := NextRows(rows, inputs);
    assert printed == [row] + kept;
    AllReadable(kept);
    assert Legible(row);
    assert forall i :: 0 < i < |printed| ==> printed[i] == kept[i - 1];
    assert printed[1..] == kept;
    SectionReadsBack(inputs.before, printed);
  }

  // ---------------------------------------------------------------- repeated rebuilds

  /** The body after a series of rebuilds, each given the last body, from an empty one. */
  function BodyAfter(runs: seq<Inputs>): string {
    if runs == [] then "" else Rebuild(BodyAfter(runs[..|runs| - 1]), runs[|runs| - 1])
  }

  function RowsAfter(runs: seq<Inputs>): seq<Row> {
    if runs == [] then [] else NextRows(RowsAfter(runs[..|runs| - 1]), runs[|runs| - 1])
  }

  /** The runs the rows come from. */
  function Origins(runs: seq<Inputs>): seq<nat> {
    if runs == [] then []
    else
      var n, last := |runs| - 1, runs[|runs| - 1];
      var before := Origins(runs[..n]);
      if AddsRow(last) && !HasCommit(RowsAfter(runs[..n]), ShortCommit(last.commit))
      then ([n] + before)[..if |before| < MAX_ROWS then |before| + 1 else MAX_ROWS]
      else before
  }

  ghost predicate Rebuildable(run: Inputs) {
    !Occurs(run.before, START) && CommitIsHex(run)
  }

  predicate CameFrom(row: Row, run: nat, runs: seq<Inputs>) {
    run < |runs| && AddsRow(runs[run]) && row == NewRow(runs[run])
  }

  predicate AllCameFrom(rows: seq<Row>, origins: seq<nat>, runs: seq<Inputs>) {
    |origins| == |rows| && forall i :: 0 <= i < |rows| ==> CameFrom(rows[i], origins[i], runs)
  }

  predicate Descending(s: seq<nat>) {
    forall i, j :: 0 <= i < j < |s| ==> s[i] > s[j]
  }

  predicate NewestFirst(rows: seq<Row>, origins: seq<nat>, runs: seq<Inputs>) {
    |rows| <= 20 && Descending(origins) && AllCameFrom(rows, origins, runs)
  }

  predicate NoCommitTwice(rows: seq<Row>) {
    forall i, j :: 0 <= i < j < |rows| ==> rows[i].commit != rows[j].commit
  }

  /** Nothing is left out before the table is full. */
  ghost predicate Complete(rows: seq<Row>, runs: seq<Inputs>) {
    |rows| < 20 ==>
      forall k :: 0 <= k < |runs| && AddsRow(runs[k]) ==> HasCommit(rows, ShortCommit(runs[k].commit))
  }

  lemma {:induction false} RowsAreNewestFirst(runs: seq<Inputs>)
    ensures NewestFirst(RowsAfter(runs), Origins(runs), runs) && NoCommitTwice(RowsAfter(runs))
    decreases runs
  {
    if runs == [] {
    } else {
      var n := |runs| - 1;
      var was, origins := RowsAfter(runs[..n]), Origins(runs[..n]);
      RowsAreNewestFirst(runs[..n]);
      if AddsRow(runs[n]) && !HasCommit(was, ShortCommit(runs[n].commit)) {
        var row, rows := NewRow(runs[n]), RowsAfter(runs);
        AddedRowIsNew(was, row);
        AddedRunDescends(origins, n, |rows|);
        AddedRowCameFrom(was, origins, runs, row);
        assert Origins(runs) == ([n] + origins)[..|rows|] && rows == ([row] + was)[..|rows|];
        AllCameFromStart([row] + was, [n] + origins, runs, |rows|);
      } else {
        AllCameFromEarlier(was, origins, runs);
      }
    }
  }

  lemma AddedRowIsNew(was: seq<Row>, row: Row)
    requires NoCommitTwice(was) && !HasCommit(was, row.commit)
    ensures NoCommitTwice(Trim([row] + was))
  {
    var rows := [row] + was;
    forall i, j | 0 <= i < j < |rows| ensures rows[i].commit != rows[j].commit {
      assert rows[j] == was[j - 1];
      assert i > 0 ==> rows[i] == was[i - 1];
    }
  }

  lemma AddedRunDescends(origins: seq<nat>, run: nat, n: nat)
    requires Descending(origins) && (forall i :: 0 <= i < |origins| ==> origins[i] < run) && n <= |origins| + 1
    ensures Descending(([run] + origins)[..n])
  {
    var now := [run] + origins;
    forall i, j | 0 <= i < j < |now| ensures now[i] > now[j] {
      assert now[j] == origins[j - 1];
      assert i > 0 ==> now[i] == origins[i - 1];
    }
  }

  lemma AddedRowCameFrom(was: seq<Row>, origins: seq<nat>, runs: seq<Inputs>, row: Row)
    requires runs != [] && CameFrom(row, |runs| - 1, runs) && AllCameFrom(was, origins, runs[..|runs| - 1])
    ensures AllCameFrom([row] + was, [|runs| - 1] + origins, runs)
  {
    AllCameFromEarlier(was, origins, runs);
    var rows, now := [row] + was, [|runs| - 1] + origins;
    forall i | 0 <= i < |rows| ensures CameFrom(rows[i], now[i], runs) {
      if i == 0 {
        assert rows[0] == row && now[0] == |runs| - 1;
      } else {
        assert CameFrom(was[i - 1], origins[i - 1], runs);
      }
    }
  }

  lemma CameFromEarlier(row: Row, run: nat, runs: seq<Inputs>)
    requires runs != [] && CameFrom(row, run, runs[..|runs| - 1])
    ensures CameFrom(row, run, runs)
  {
    assert runs[..|runs| - 1][run] == runs[run];
  }

  lemma AllCameFromEarlier(rows: seq<Row>, origins: seq<nat>, runs: seq<Inputs>)
    requires runs != [] && AllCameFrom(rows, origins, runs[..|runs| - 1])
    ensures AllCameFrom(rows, origins, runs)
  {
    forall i | 0 <= i < |rows| ensures CameFrom(rows[i], origins[i], runs) {
      CameFromEarlier(rows[i], origins[i], runs);
    }
  }

  lemma AllCameFromStart(rows: seq<Row>, origins: seq<nat>, runs: seq<Inputs>, n: nat)
    requires AllCameFrom(rows, origins, runs) && n <= |rows|
    ensures AllCameFrom(rows[..n], origins[..n], runs)
  {
  }

  /** A run with coverage and a commit has its commit in the table afterwards, any other leaves the table alone. */
  lemma RunsAddRows(rows: seq<Row>, inputs: Inputs)
    requires |rows| <= 20
    ensures if inputs.coverage.Some? && inputs.commit != "" then HasCommit(NextRows(rows, inputs), ShortCommit(inputs.commit))
            else NextRows(rows, inputs) == rows
  {
    if AddsRow(inputs) {
      MergeKeepsCommits(rows, NewRow(inputs));
    }
  }

  /** Merging loses no commit unless the table overflows, and always holds the new one. */
  lemma MergeKeepsCommits(was: seq<Row>, row: Row)
    requires |was| <= 20
    ensures HasCommit(Merge(was, row), row.commit)
    ensures |was| < 20 ==> forall commit :: HasCommit(was, commit) ==> HasCommit(Merge(was, row), commit)
    ensures |was| <= |Merge(was, row)|
  {
    var rows := Merge(was, row);
    if !HasCommit(was, row.commit) {
      assert rows[0] == row;
    }
    forall commit | |was| < MAX_ROWS && HasCommit(was, commit) ensures HasCommit(rows, commit) {
      var i :| 0 <= i < |was| && was[i].commit == commit;
      assert rows == was || rows[i + 1] == was[i];
    }
  }

  lemma {:induction false} RowsAreComplete(runs: seq<Inputs>)
    ensures |RowsAfter(runs)| <= MAX_ROWS && Complete(RowsAfter(runs), runs)
    ensures runs != [] && AddsRow(runs[|runs| - 1]) ==> HasCommit(RowsAfter(runs), ShortCommit(runs[|runs| - 1].commit))
    decreases runs
  {
    if runs == [] {
    } else {
      var n := |runs| - 1;
      var was, rows := RowsAfter(runs[..n]), RowsAfter(runs);
      RowsAreComplete(runs[..n]);
      if AddsRow(runs[n]) {
        MergeKeepsCommits(was, NewRow(runs[n]));
      }
      forall k | |rows| < MAX_ROWS && 0 <= k < |runs| && AddsRow(runs[k])
        ensures HasCommit(rows, ShortCommit(runs[k].commit))
      {
        if k < n {
          assert runs[..n][k] == runs[k];
          assert HasCommit(was, ShortCommit(runs[k].commit));
        }
      }
    }
  }

  /**
   Over any series of rebuilds from an empty body, the history read back from the
   body holds at most 20 rows, newest first, no commit twice, each row as the run
   that added it made it. The latest commit is always among them, and until there are
   20 rows so is every other.
   */
  lemma {:induction false} HistorySurvivesRebuilds(runs: seq<Inputs>)
    requires forall i :: 0 <= i < |runs| ==> Rebuildable(runs[i])
    ensures var rows := Extract(BodyAfter(runs));
            && rows == RowsAfter(runs) && NewestFirst(rows, Origins(runs), runs) && NoCommitTwice(rows) && Complete(rows, runs)
            && (runs != [] && AddsRow(runs[|runs| - 1]) ==> HasCommit(rows, ShortCommit(runs[|runs| - 1].commit)))
    decreases runs
  {
    RowsAreNewestFirst(runs);
    RowsAreComplete(runs);
    if runs == [] {
      assert IndexOf("", START).None?;
    } else {
      var n := |runs| - 1;
      HistorySurvivesRebuilds(runs[..n]);
      assert Rebuildable(runs[n]);
      RebuildRoundTrip(BodyAfter(runs[..n]), runs[n]);
    }
  }

  /** What the rows of a body become, whatever the commit of the run is. */
  function NextRead(rows: seq<Row>, run: Inputs): seq<Row> {
    if CommitIsHex(run) then NextRows(rows, run) else MakeRoom(rows)
  }

  function ReadAfter(runs: seq<Inputs>): seq<Row> {
    if runs == [] then [] else NextRead(ReadAfter(runs[..|runs| - 1]), runs[|runs| - 1])
  }

  lemma NothingIsRead()
    ensures Extract("") == []
  {
    assert IndexOf("", START).None?;
  }

  /** What one rebuild's body is read back as, whatever its commit. */
  lemma RebuildIsRead(prevBody: string, run: Inputs)
    requires !Occurs(run.before, START) && (AddsRow(run) ==> Word(ShortCommit(run.commit)))
    ensures Extract(Rebuild(prevBody, run)) == NextRead(Extract(prevBody), run)
  {
    RebuildRoundTrip(prevBody, run);
    if !CommitIsHex(run) {
      BadCommitIsLost(prevBody, run);
    }
  }

  /** Runs with a bad commit in between cost a full table a row each, and nothing else. */
  lemma {:induction false} HistoryWithBadCommits(runs: seq<Inputs>)
    requires forall i :: 0 <= i < |runs| ==>
               !Occurs(runs[i].before, START) && (AddsRow(runs[i]) ==> Word(ShortCommit(runs[i].commit)))
    ensures Extract(BodyAfter(runs)) == ReadAfter(runs)
    decreases runs
  {
    if runs == [] {
      NothingIsRead();
    } else {
      var init, run := runs[..|runs| - 1], runs[|runs| - 1];
      assert forall i :: 0 <= i < |init| ==> init[i] == runs[i];
      HistoryWithBadCommits(init);
      RebuildIsRead(BodyAfter(init), run);
      assert BodyAfter(runs) == Rebuild(BodyAfter(init), run) && ReadAfter(runs) == NextRead(ReadAfter(init), run);
    }
  }

  // ---------------------------------------------------------------- the loops

  method ExtractTrend(prevBody: string) returns (rows: seq<Row>)
    ensures rows == Extract(prevBody)
  {
    var between := Between(prevBody, START, END);
    if between.None? {
      return [];
    }
    rows := ReadRows(SplitLines(between.value));
  }

  method ReadRows(lines: seq<string>) returns (rows: seq<Row>)
    ensures rows == RowsOf(lines)
  {
    rows := [];
    for i := 0 to |lines|
      invariant rows + RowsOf(lines[i..]) == RowsOf(lines)
    {
      var line, left := lines[i], lines[i..];
      assert left[0] == line && left[1..] == lines[i + 1..];
      var row := ParseRow(line);
      if row.Some? {
        rows := rows + [row.value];
      }
    }
  }

  method MergeTrend(rows: seq<Row>, newRow: Row) returns (merged: seq<Row>)
    ensures merged == Merge(rows, newRow)
  {
    for i := 0 to |rows|
      invariant !HasCommit(rows[..i], newRow.commit)
    {
      if rows[i].commit == newRow.commit {
        return Trim(rows);
      }
    }
    assert rows[..|rows|] == rows;
    return Trim([newRow] + rows);
  }

  method WriteRows(rows: seq<Row>) returns (printed: string)
    ensures printed == PrintRows(rows)
  {
    printed := "";
    for i := 0 to |rows|
      invariant printed + PrintRows(rows[i..]) == PrintRows(rows)
    {
      assert rows[i..][1..] == rows[i + 1..];
      printed := printed + (PrintRow(rows[i]) + "\n");
    }
  }

  method RenderTrendSection(prevBody: string, inputs: Inputs) returns (section: string)
    ensures section == Section(NextRows(Extract(prevBody), inputs))
  {
    var rows := ExtractTrend(prevBody);
    if inputs.coverage.Some? && inputs.commit != "" {
      rows := MergeTrend(rows, NewRow(inputs));
    }
    var printed := WriteRows(rows);
    section := "## Trend\n" + (START + ("\n" + (HEADER + "\n" + (SEPARATOR + "\n" + printed)) + (END + "\n")));
  }
}
