/** What normalising a text and packing a workbook keep: every line that has some text, in order, and of each line every
    character that is not white space. */
module TextConservation {
  import opened Decimals
  import opened Outcomes
  import opened SheetPacker
  import opened TextNormalizer
  import opened Whitespace

  // ---------------------------------------------------------------- the outline of a text

  /** The lines read so far that have some ink, and the ink of the line being read. */
  datatype Reading = Reading(lines: seq<string>, line: string)

  const START := Reading([], [])

  function Broken(r: Reading): Reading {
    if r.line == [] then r else Reading(r.lines + [r.line], [])
  }

  /** A break ends a line; white space and NUL leave no ink. */
  function ReadChar(r: Reading, c: char): Reading {
    if c == '\n' || c == '\r' then Broken(r)
    else if IsSpace(c) || c == '\0' then r
    else r.(line := r.line + [c])
  }

  function Read(r: Reading, s: string): Reading {
    if s == [] then r else ReadChar(Read(r, s[..|s| - 1]), s[|s| - 1])
  }

  /** The ink of the lines that have some. */
  function Outline(s: string): seq<string> {
    Broken(Read(START, s)).lines
  }

  lemma {:induction false} ReadBoth(r: Reading, a: string, b: string)
    ensures Read(r, a + b) == Read(Read(r, a), b)
  {
    hide ReadChar;
    if b == [] {
      assert a + b == a;
    } else {
      ReadBoth(r, a, b[..|b| - 1]);
      assert (a + b)[..|a + b| - 1] == a + b[..|b| - 1];
    }
  }

  lemma ReadOne(r: Reading, c: char)
    ensures Read(r, [c]) == ReadChar(r, c) && Read(r, []) == r
  {
    assert [c][..0] == [];
  }

  lemma ReadFirst(r: Reading, s: string)
    requires s != []
    ensures Read(r, s) == Read(ReadChar(r, s[0]), s[1..])
  {
    ReadOne(r, s[0]);
    ReadBoth(r, [s[0]], s[1..]);
    assert [s[0]] + s[1..] == s;
  }

  lemma BreakTwice(r: Reading)
    ensures ReadChar(ReadChar(r, '\r'), '\n') == ReadChar(r, '\n') == ReadChar(r, '\r')
  {
  }

  // ---------------------------------------------------------------- the passes keep it

  lemma {:induction false} CrLfKeeps(r: Reading, s: string)
    ensures Read(r, ReplaceCrLf(s)) == Read(r, s)
    decreases |s|
  {
    hide ReadChar, Read;
    if |s| >= 2 && s[0] == '\r' && s[1] == '\n' {
      BreakTwice(r);
      CrLfKeeps(ReadChar(r, '\n'), s[2..]);
      ReadFirst(r, s);
      ReadFirst(ReadChar(r, '\r'), s[1..]);
      assert s[1..][1..] == s[2..];
      ReadFirst(r, "\n" + ReplaceCrLf(s[2..]));
      assert ("\n" + ReplaceCrLf(s[2..]))[1..] == ReplaceCrLf(s[2..]);
    } else if s != [] {
      CrLfKeeps(ReadChar(r, s[0]), s[1..]);
      ReadFirst(r, s);
      ReadFirst(r, [s[0]] + ReplaceCrLf(s[1..]));
      assert ([s[0]] + ReplaceCrLf(s[1..]))[1..] == ReplaceCrLf(s[1..]);
    }
  }

  lemma {:induction false} CrKeeps(r: Reading, s: string)
    ensures Read(r, ReplaceCr(s)) == Read(r, s)
    decreases |s|
  {
    hide ReadChar, Read;
    if s != [] {
      var c := if s[0] == '\r' then '\n' else s[0];
      BreakTwice(r);
      CrKeeps(ReadChar(r, c), s[1..]);
      ReadFirst(r, s);
      ReadFirst(r, [c] + ReplaceCr(s[1..]));
      assert ([c] + ReplaceCr(s[1..]))[1..] == ReplaceCr(s[1..]);
    }
  }

  lemma {:induction false} NulKeeps(r: Reading, s: string)
    ensures Read(r, DropNul(s)) == Read(r, s)
    decreases |s|
  {
    hide Read;
    if s != [] {
      ReadFirst(r, s);
      NulKeeps(ReadChar(r, s[0]), s[1..]);
      if s[0] != '\0' {
        ReadFirst(r, [s[0]] + DropNul(s[1..]));
        assert ([s[0]] + DropNul(s[1..]))[1..] == DropNul(s[1..]);
      } else {
        assert DropNul(s) == DropNul(s[1..]);
      }
    }
  }

  lemma {:induction false} SpacesAreNothing(r: Reading, s: string)
    requires forall i :: 0 <= i < |s| ==> IsSpace(s[i])
    ensures Broken(Read(r, s)) == Broken(r)
    ensures r.line == [] ==> Read(r, s) == r
  {
    hide IsSpace;
    if s != [] { SpacesAreNothing(r, s[..|s| - 1]); }
  }

  /** White space at the ends of a text is no part of its outline. */
  lemma StripKeeps(s: string)
    ensures Outline(Strip(s)) == Outline(s)
  {
    hide Read, IsSpace, Strip;
    var from, to := StripIsMiddle(s);
    assert s == s[..from] + s[from..to] + s[to..];
    ReadBoth(START, s[..from] + s[from..to], s[to..]);
    ReadBoth(START, s[..from], s[from..to]);
    SpacesAreNothing(START, s[..from]);
    SpacesAreNothing(Read(START, s[from..to]), s[to..]);
  }

  /** Within one line a strip changes nothing at all. */
  lemma StripKeepsLine(r: Reading, s: string)
    requires OneLine(s)
    ensures Read(r, Strip(s)) == Read(r, s)
  {
    hide Read, IsSpace, Strip;
    var from, to := StripIsMiddle(s);
    assert s == s[..from] + s[from..to] + s[to..];
    ReadBoth(r, s[..from] + s[from..to], s[to..]);
    ReadBoth(r, s[..from], s[from..to]);
    BlanksAreNothing(r, s[..from]);
    BlanksAreNothing(Read(r, s[from..to]), s[to..]);
  }

  lemma {:induction false} BlanksAreNothing(r: Reading, s: string)
    requires OneLine(s) && forall i :: 0 <= i < |s| ==> IsSpace(s[i])
    ensures Read(r, s) == r
  {
    hide IsSpace;
    if s != [] { BlanksAreNothing(r, s[..|s| - 1]); }
  }

  lemma {:induction false} CollapseBlanksKeeps(r: Reading, s: string)
    ensures Read(r, CollapseBlanks(s)) == Read(r, s)
  {
    hide Read;
    ReadOne(r, ' ');
    if s != [] {
      var n := |s| - 1;
      var before := CollapseBlanks(s[..n]);
      CollapseBlanksKeeps(r, s[..n]);
      assert Read(r, s) == ReadChar(Read(r, s[..n]), s[n]) by { ReadLast(r, s); }
      if !IsBlank(s[n]) {
        ReadBoth(r, before, [s[n]]);
        ReadOne(Read(r, before), s[n]);
      } else {
        ReadBoth(r, before, " ");
        ReadOne(Read(r, before), ' ');
      }
    }
  }

  lemma ReadLast(r: Reading, s: string)
    requires s != []
    ensures Read(r, s) == ReadChar(Read(r, s[..|s| - 1]), s[|s| - 1])
  {
  }

  lemma CollapsedIsOneLine(line: string)
    requires OneLine(line)
    ensures OneLine(CollapseBlanks(line))
  {
    CollapsedIsTidy(line);
  }

  lemma {:induction false} LinesKeep(r: Reading, lines: seq<string>)
    requires lines != [] && forall i :: 0 <= i < |lines| ==> OneLine(lines[i])
    ensures Read(r, Join(NormalizeLines(lines))) == Read(r, Join(lines))
    decreases |lines|
  {
    hide Read, OneLine, Strip, CollapseBlanks;
    var line := NormalizeLine(lines[0]);
    CollapsedIsOneLine(lines[0]);
    StripKeepsLine(r, CollapseBlanks(lines[0]));
    CollapseBlanksKeeps(r, lines[0]);
    if |lines| > 1 {
      var after := Read(Read(r, lines[0]), "\n");
      LinesKeep(after, lines[1..]);
      assert NormalizeLines(lines)[1..] == NormalizeLines(lines[1..]);
      ReadBoth(r, line + "\n", Join(NormalizeLines(lines[1..])));
      ReadBoth(r, line, "\n");
      ReadBoth(r, lines[0] + "\n", Join(lines[1..]));
      ReadBoth(r, lines[0], "\n");
    }
  }

  lemma {:induction false} CollapseNewlinesKeeps(s: string)
    ensures Read(START, CollapseNewlines(s)) == Read(START, s)
  {
    if s != [] {
      var n := |s| - 1;
      CollapseNewlinesKeeps(s[..n]);
      if n >= 2 && s[n] == '\n' && s[n - 1] == '\n' {
        ReadLast(START, s[..n]);
        assert s[..n][n - 1] == '\n';
      }
      ReadBoth(START, CollapseNewlines(s[..n]), [s[n]]);
      ReadOne(Read(START, CollapseNewlines(s[..n])), s[n]);
    }
  }

  /** Normalising keeps the lines that have some text, one by one and in order, and of each of them every character that is
      neither white space nor NUL; it joins no two lines and splits none. */
  lemma NormalizeKeepsOutline(value: string)
    ensures Outline(Normalize(value)) == Outline(value)
  {
    hide Read, Strip, CollapseNewlines, Split, Join, NormalizeLines, ReplaceCrLf, ReplaceCr, DropNul;
    var text := DropNul(ReplaceCr(ReplaceCrLf(value)));
    CrLfKeeps(START, value);
    CrKeeps(START, ReplaceCrLf(value));
    NulKeeps(START, ReplaceCr(ReplaceCrLf(value)));
    ReturnsGone(ReplaceCrLf(value));
    NulsGone(ReplaceCr(ReplaceCrLf(value)));
    LinesHaveNoNewline(text);
    JoinSplit(text);
    LinesKeep(START, Split(text));
    var joined := Join(NormalizeLines(Split(text)));
    CollapseNewlinesKeeps(joined);
    StripKeeps(CollapseNewlines(joined));
  }

  // ---------------------------------------------------------------- the outline of a workbook

  /** The cells up to the last one with some text, between bars. */
  function Cells(cells: seq<string>): string {
    if cells == [] then []
    else if cells[|cells| - 1] == [] then Cells(cells[..|cells| - 1])
    else Barred(cells)
  }

  function Barred(cells: seq<string>): string {
    if cells == [] then []
    else if |cells| == 1 then cells[0]
    else Barred(cells[..|cells| - 1]) + " | " + cells[|cells| - 1]
  }

  predicate HasText(cells: seq<string>) {
    exists i :: 0 <= i < |cells| && cells[i] != []
  }

  /** What the rows of a sheet say: of each row with some text its number and its cells. */
  function RowsOutline(rows: seq<seq<string>>): seq<string> {
    if rows == [] then []
    else
      var n := |rows|;
      RowsOutline(rows[..n - 1])
      + if HasText(rows[n - 1]) then Outline("row " + Digits(n) + ": " + Cells(rows[n - 1])) else []
  }

  function BookOutline(sheets: seq<Sheet>): seq<string> {
    if sheets == [] then [] else BookOutline(sheets[..|sheets| - 1]) + RowsOutline(sheets[|sheets| - 1].rows)
  }

  function UnitsOutline(units: seq<SheetUnit>): seq<string> {
    if units == [] then [] else UnitsOutline(units[..|units| - 1]) + Outline(units[|units| - 1].text)
  }

  function LinesOutline(rows: seq<Row>): seq<string> {
    if rows == [] then [] else LinesOutline(rows[..|rows| - 1]) + Outline(rows[|rows| - 1].line)
  }

  lemma {:induction false} JoinIsBarred(cells: seq<string>)
    ensures JoinCells(cells) == Barred(cells)
    decreases |cells|
  {
    if |cells| > 1 {
      BarredFirst(cells);
      JoinIsBarred(cells[1..]);
    }
  }

  lemma {:induction false} BarredFirst(cells: seq<string>)
    requires |cells| > 1
    ensures Barred(cells) == cells[0] + " | " + Barred(cells[1..])
    decreases |cells|
  {
    var n := |cells| - 1;
    if n > 1 {
      BarredFirst(cells[..n]);
      assert cells[..n][1..] == cells[1..][..n - 1];
    } else {
      assert Barred(cells[..1]) == cells[0] && Barred(cells[1..]) == cells[1];
    }
  }

  lemma {:induction false} TrimmedCells(cells: seq<string>)
    ensures JoinCells(Trimmed(cells)) == Cells(cells)
  {
    hide JoinCells, Barred;
    if cells != [] && cells[|cells| - 1] == [] {
      TrimmedCells(cells[..|cells| - 1]);
    } else {
      JoinIsBarred(cells);
      NoCells();
    }
  }

  lemma NoCells()
    ensures JoinCells([]) == []
  {
  }

  lemma {:induction false} KeptOutline(rows: seq<seq<string>>)
    ensures LinesOutline(Kept(rows)) == RowsOutline(rows)
  {
    hide Outline, Digits, Cells, Trimmed;
    if rows != [] {
      var n := |rows|;
      KeptOutline(rows[..n - 1]);
      TrimmedCells(rows[n - 1]);
      var before := Kept(rows[..n - 1]);
      if !IsBlankRow(rows[n - 1]) {
        assert (before + [Row(n, RowLine(n, rows[n - 1]))])[..|before|] == before;
      } else {
        assert before + [] == before;
      }
    }
  }

  /** A break between two texts keeps their outlines apart. */
  lemma OutlineOfBoth(a: string, b: string)
    ensures Outline(a + "\n" + b) == Outline(a) + Outline(b)
  {
    hide Read;
    ReadBoth(START, a + "\n", b);
    ReadBoth(START, a, "\n");
    ReadOne(Read(START, a), '\n');
    var lines := Broken(Read(START, a)).lines;
    ReadFrom(lines, START, b);
    assert lines + [] == lines;
  }

  /** Lines already read stay in front. */
  lemma {:induction false} ReadFrom(lines: seq<string>, r: Reading, s: string)
    ensures Read(r.(lines := lines + r.lines), s) == Read(r, s).(lines := lines + Read(r, s).lines)
  {
    hide IsSpace;
    if s != [] {
      ReadFrom(lines, r, s[..|s| - 1]);
      var before := Read(r, s[..|s| - 1]);
      assert lines + (before.lines + [before.line]) == lines + before.lines + [before.line];
    }
  }

  lemma {:induction false} GroupOutline(group: seq<Row>)
    requires group != []
    ensures Outline(Join(Lines(group))) == LinesOutline(group)
  {
    hide Outline;
    if |group| > 1 {
      var init := group[..|group| - 1];
      GroupOutline(init);
      JoinAppends(Lines(init), group[|group| - 1].line);
      OutlineOfBoth(Join(Lines(init)), group[|group| - 1].line);
    } else {
      assert group[..0] == [];
      assert LinesOutline(group) == [] + Outline(group[0].line);
    }
  }

  lemma MoreLines(rows: seq<Row>, row: Row)
    ensures LinesOutline(rows + [row]) == LinesOutline(rows) + Outline(row.line)
  {
    hide Outline;
    assert (rows + [row])[..|rows|] == rows;
  }

  lemma Regroup(a: seq<string>, b: seq<string>, c: seq<string>)
    ensures (a + b) + c == a + (b + c)
  {
  }

  lemma {:induction false} LinesOutlineBoth(a: seq<Row>, b: seq<Row>)
    ensures LinesOutline(a + b) == LinesOutline(a) + LinesOutline(b)
  {
    hide Outline, LinesOutline;
    if b == [] {
      MoreLinesNone();
      assert a + b == a && LinesOutline(a) + [] == LinesOutline(a);
    } else {
      var n := |b| - 1;
      LinesOutlineBoth(a, b[..n]);
      MoreLines(a + b[..n], b[n]);
      MoreLines(b[..n], b[n]);
      assert b == b[..n] + [b[n]] && a + b == a + b[..n] + [b[n]];
      Regroup(LinesOutline(a), LinesOutline(b[..n]), Outline(b[n].line));
    }
  }

  lemma MoreLinesNone()
    ensures LinesOutline([]) == []
  {
  }

  lemma {:induction false} GroupsOutline(groups: seq<seq<Row>>, title: string)
    requires forall k :: 0 <= k < |groups| ==> groups[k] != []
    ensures UnitsOutline(UnitsOf(groups, title)) == LinesOutline(Flatten(groups))
  {
    hide Outline, Normalize, Title;
    if groups != [] {
      var n := |groups| - 1;
      GroupsOutline(groups[..n], title);
      GroupOutline(groups[n]);
      NormalizeKeepsOutline(Join(Lines(groups[n])));
      LinesOutlineBoth(Flatten(groups[..n]), groups[n]);
      var units := UnitsOf(groups[..n], title);
      assert (units + [UnitOf(groups[n], title)])[..n] == units;
    }
  }

  lemma MoreUnits(units: seq<SheetUnit>, unit: SheetUnit)
    ensures UnitsOutline(units + [unit]) == UnitsOutline(units) + Outline(unit.text)
  {
    hide Outline;
    assert (units + [unit])[..|units|] == units;
  }

  lemma {:induction false} UnitsOutlineBoth(a: seq<SheetUnit>, b: seq<SheetUnit>)
    ensures UnitsOutline(a + b) == UnitsOutline(a) + UnitsOutline(b)
  {
    hide Outline, UnitsOutline;
    if b == [] {
      MoreUnitsNone();
      assert a + b == a && UnitsOutline(a) + [] == UnitsOutline(a);
    } else {
      var n := |b| - 1;
      UnitsOutlineBoth(a, b[..n]);
      MoreUnits(a + b[..n], b[n]);
      MoreUnits(b[..n], b[n]);
      assert b == b[..n] + [b[n]] && a + b == a + b[..n] + [b[n]];
      Regroup(UnitsOutline(a), UnitsOutline(b[..n]), Outline(b[n].text));
    }
  }

  lemma MoreUnitsNone()
    ensures UnitsOutline([]) == []
  {
  }

  lemma {:induction false} AllUnitsOutline(sheets: seq<Sheet>)
    ensures UnitsOutline(AllUnits(sheets)) == BookOutline(sheets)
  {
    hide Groups, Kept, RowsOutline, UnitsOf;
    if sheets != [] {
      var n := |sheets| - 1;
      AllUnitsOutline(sheets[..n]);
      GroupsFlatten(sheets[n]);
      GroupsOutline(SheetGroups(sheets[n]), sheets[n].title);
      KeptOutline(sheets[n].rows);
      UnitsOutlineBoth(AllUnits(sheets[..n]), SheetUnits(sheets[n]));
    }
  }

  /** Nothing that a workbook says is lost, moved or made up on the way to its units: their texts, one after the other,
      have the lines of its rows, each row with its number and all its cells. */
  lemma WorkbookIsKept(sheets: seq<Sheet>)
    requires Parsed(sheets).Ok?
    ensures UnitsOutline(Parsed(sheets).value) == BookOutline(sheets)
  {
    AllUnitsOutline(sheets);
  }
}
