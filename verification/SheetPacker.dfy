/** parse_xlsx after the workbook is open: which rows are kept, how they are packed into units, when it fails. */
module SheetPacker {
  import opened Decimals
  import opened Outcomes
  import opened TextNormalizer
  import opened Whitespace

  const UNIT_TARGET := 4800
  const MAX_EXTRACTED := 2_000_000
  const TITLE_MAX := 200

  /** A worksheet: for every row the texts of its cells. */
  datatype Sheet = Sheet(title: string, rows: seq<seq<string>>)
  datatype Row = Row(index: nat, line: string)
  datatype SheetUnit = SheetUnit(text: string, sheet: string, rowStart: nat, rowEnd: nat)

  // ---------------------------------------------------------------- rows

  function Trimmed(cells: seq<string>): seq<string> {
    if cells != [] && cells[|cells| - 1] == [] then Trimmed(cells[..|cells| - 1]) else cells
  }

  predicate IsBlankRow(cells: seq<string>) {
    forall i :: 0 <= i < |cells| ==> cells[i] == []
  }

  function JoinCells(cells: seq<string>): string {
    if cells == [] then [] else if |cells| == 1 then cells[0] else cells[0] + " | " + JoinCells(cells[1..])
  }

  function RowLine(index: nat, cells: seq<string>): string {
    "row " + Digits(index) + ": " + JoinCells(Trimmed(cells))
  }

  /** The rows with some text, numbered from one, in order. */
  function Kept(rows: seq<seq<string>>): seq<Row> {
    if rows == [] then []
    else
      var n := |rows|;
      Kept(rows[..n - 1]) + if IsBlankRow(rows[n - 1]) then [] else [Row(n, RowLine(n, rows[n - 1]))]
  }

  lemma {:induction false} TrimLeavesNothingOfBlanks(cells: seq<string>)
    ensures IsBlankRow(Trimmed(cells)) <==> IsBlankRow(cells)
    ensures Trimmed(cells) == [] <==> IsBlankRow(cells)
  {
    if cells != [] && cells[|cells| - 1] == [] {
      TrimLeavesNothingOfBlanks(cells[..|cells| - 1]);
    }
  }

  lemma {:induction false} KeptNumbers(rows: seq<seq<string>>)
    ensures forall k :: 0 <= k < |Kept(rows)| ==> 1 <= Kept(rows)[k].index <= |rows|
    ensures forall j, k :: 0 <= j < k < |Kept(rows)| ==> Kept(rows)[j].index < Kept(rows)[k].index
  {
    if rows != [] { KeptNumbers(rows[..|rows| - 1]); }
  }

  // ---------------------------------------------------------------- groups

  /** current_chars: every line and its line break. */
  function Weight(rows: seq<Row>): nat {
    if rows == [] then 0 else Weight(rows[..|rows| - 1]) + |rows[|rows| - 1].line| + 1
  }

  function Lines(rows: seq<Row>): (lines: seq<string>)
    ensures |lines| == |rows|
  {
    if rows == [] then [] else Lines(rows[..|rows| - 1]) + [rows[|rows| - 1].line]
  }

  function Flatten(groups: seq<seq<Row>>): seq<Row> {
    if groups == [] then [] else Flatten(groups[..|groups| - 1]) + groups[|groups| - 1]
  }

  ghost predicate IsGroup(group: seq<Row>) {
    group != [] && (|group| > 1 ==> Weight(group) <= UNIT_TARGET)
  }

  /** The next row would not have fitted. */
  ghost predicate IsFull(group: seq<Row>, next: seq<Row>) {
    next != [] && Weight(group) + |next[0].line| + 1 > UNIT_TARGET
  }

  /** Every row in exactly one group, in order, groups of several rows within the target, none closed early. */
  ghost predicate Packed(groups: seq<seq<Row>>, rows: seq<Row>) {
    && Flatten(groups) == rows
    && (forall k :: 0 <= k < |groups| ==> IsGroup(groups[k]))
    && forall k :: 0 <= k < |groups| - 1 ==> IsFull(groups[k], groups[k + 1])
  }

  lemma {:induction false} JoinedLength(rows: seq<Row>)
    requires rows != []
    ensures |Join(Lines(rows))| == Weight(rows) - 1
  {
    if |rows| > 1 {
      var init := rows[..|rows| - 1];
      JoinedLength(init);
      JoinAppends(Lines(init), rows[|rows| - 1].line);
    }
  }

  lemma {:induction false} JoinAppends(lines: seq<string>, last: string)
    requires lines != []
    ensures Join(lines + [last]) == Join(lines) + "\n" + last
  {
    if |lines| > 1 {
      JoinAppends(lines[1..], last);
      assert (lines + [last])[1..] == lines[1..] + [last];
    } else {
      assert (lines + [last])[1..] == [last];
    }
  }

  lemma {:induction false} WeightOfMore(rows: seq<Row>, k: nat)
    requires k <= |rows|
    ensures Weight(rows[..k]) <= Weight(rows)
    ensures k < |rows| ==> Weight(rows[..k]) + |rows[k].line| + 1 <= Weight(rows)
  {
    var n := |rows| - 1;
    if k < n {
      WeightOfMore(rows[..n], k);
      assert rows[..n][..k] == rows[..k];
    } else if k == n + 1 {
      assert rows[..k] == rows;
    }
  }

  lemma {:induction false} FlattenSplits(first: seq<Row>, rest: seq<seq<Row>>)
    ensures Flatten([first] + rest) == first + Flatten(rest)
  {
    var all := [first] + rest;
    if rest == [] {
      assert all[..0] == [];
    } else {
      FlattenSplits(first, rest[..|rest| - 1]);
      assert all[..|all| - 1] == [first] + rest[..|rest| - 1];
    }
  }

  /** The first group is a prefix of the rows, and the row after it would not have fitted. */
  lemma HeadOf(a: seq<seq<Row>>, rows: seq<Row>)
    requires Packed(a, rows) && a != []
    ensures |a[0]| <= |rows| && a[0] == rows[..|a[0]|] && IsGroup(a[0])
    ensures |a[0]| < |rows| ==> Weight(a[0]) + |rows[|a[0]|].line| + 1 > UNIT_TARGET
  {
    FlattenSplits(a[0], a[1..]);
    assert a == [a[0]] + a[1..];
    if |a| > 1 {
      FlattenSplits(a[1], a[2..]);
      assert a[1..] == [a[1]] + a[2..];
      assert IsFull(a[0], a[0 + 1]) && IsGroup(a[1]);
    }
  }

  /** Two packings of the same rows cannot close their first group at different rows. */
  lemma FirstNotShorter(a: seq<seq<Row>>, b: seq<seq<Row>>, rows: seq<Row>)
    requires Packed(a, rows) && Packed(b, rows) && a != [] && b != []
    ensures |a[0]| >= |b[0]|
  {
    HeadOf(a, rows);
    HeadOf(b, rows);
    if |a[0]| < |b[0]| {
      var k := |a[0]|;
      assert b[0][..k] == rows[..k] == a[0] && b[0][k] == rows[k];
      WeightOfMore(b[0], k);
    }
  }

  lemma EmptyWhenNoRows(a: seq<seq<Row>>, rows: seq<Row>)
    requires Packed(a, rows)
    ensures a == [] <==> rows == []
  {
    if a != [] { HeadOf(a, rows); }
  }

  /** Packed is a complete specification: the rows have only one packing. */
  lemma {:induction false} PackingIsUnique(a: seq<seq<Row>>, b: seq<seq<Row>>, rows: seq<Row>)
    requires Packed(a, rows) && Packed(b, rows)
    ensures a == b
    decreases |a|
  {
    EmptyWhenNoRows(a, rows);
    EmptyWhenNoRows(b, rows);
    if rows != [] {
      FirstNotShorter(a, b, rows);
      FirstNotShorter(b, a, rows);
      HeadOf(a, rows);
      HeadOf(b, rows);
      RestIsPacked(a, rows);
      RestIsPacked(b, rows);
      PackingIsUnique(a[1..], b[1..], rows[|a[0]|..]);
      assert a == [a[0]] + a[1..] && b == [b[0]] + b[1..];
    }
  }

  lemma RestIsPacked(a: seq<seq<Row>>, rows: seq<Row>)
    requires Packed(a, rows) && a != []
    ensures |a[0]| <= |rows| && Packed(a[1..], rows[|a[0]|..])
  {
    FlattenSplits(a[0], a[1..]);
    assert a == [a[0]] + a[1..];
    assert rows[|a[0]|..] == Flatten(a[1..]);
    forall k | 0 <= k < |a[1..]| - 1 ensures IsFull(a[1..][k], a[1..][k + 1]) {
      assert IsFull(a[k + 1], a[k + 1 + 1]);
    }
  }

  /** Closing the open group and opening the next. */
  lemma PackInNext(groups: seq<seq<Row>>, open: seq<Row>, row: Row, rows: seq<Row>)
    requires open != [] && Packed(groups + [open], rows) && Weight(open) + |row.line| + 1 > UNIT_TARGET
    ensures Packed(groups + [open] + [[row]], rows + [row])
  {
    var all := groups + [open];
    var wider := all + [[row]];
    assert wider[..|wider| - 1] == all;
    forall k | 0 <= k < |wider| - 1 ensures IsFull(wider[k], wider[k + 1]) {
      if k < |groups| { assert IsFull(all[k], all[k + 1]); }
    }
  }

  /** Appending to the open group. */
  lemma PackInOpen(groups: seq<seq<Row>>, open: seq<Row>, row: Row, rows: seq<Row>)
    requires open != [] && Packed(groups + [open], rows) && Weight(open) + |row.line| + 1 <= UNIT_TARGET
    ensures Packed(groups + [open + [row]], rows + [row])
  {
    var all := groups + [open];
    assert all[..|all| - 1] == groups;
    var grown := open + [row];
    var longer := groups + [grown];
    assert longer[..|longer| - 1] == groups;
    assert grown[..|grown| - 1] == open;
    assert Flatten(groups) + grown == Flatten(groups) + open + [row];
    forall k | 0 <= k < |longer| ensures IsGroup(longer[k]) {
      if k < |groups| { assert IsGroup(all[k]); }
    }
    forall k | 0 <= k < |longer| - 1 ensures IsFull(longer[k], longer[k + 1]) {
      assert IsFull(all[k], all[k + 1]);
    }
  }

  lemma PackNone()
    ensures Groups([]) == [] && Packed([], [])
  {
  }

  lemma PackFirst(row: Row)
    ensures Packed([[row]], [row])
  {
    assert [[row]][..0] == [];
    assert [row][..0] == [];
  }

  // ---------------------------------------------------------------- units

  /** The unit of a group: its lines, normalised, and its first and last row. */
  function UnitOf(group: seq<Row>, title: string): SheetUnit
    requires group != []
  {
    SheetUnit(Normalize(Join(Lines(group))), Title(title), group[0].index, group[|group| - 1].index)
  }

  function Title(title: string): string {
    if |title| <= TITLE_MAX then title else title[..TITLE_MAX]
  }

  function UnitsOf(groups: seq<seq<Row>>, title: string): (units: seq<SheetUnit>)
    requires forall k :: 0 <= k < |groups| ==> groups[k] != []
    ensures |units| == |groups|
  {
    if groups == [] then [] else UnitsOf(groups[..|groups| - 1], title) + [UnitOf(groups[|groups| - 1], title)]
  }

  predicate Starts(s: string) {
    s != [] && s[0] == 'r'
  }

  lemma {:induction false} PassesKeepStart(s: string)
    requires Starts(s)
    ensures Starts(CollapseBlanks(s)) && Starts(CollapseNewlines(s)) && Starts(Strip(s))
    decreases |s|
  {
    if |s| > 1 {
      var n := |s| - 1;
      assert s[..n][0] == 'r';
      PassesKeepStart(s[..n]);
    }
    StripKeepsStart(s);
  }

  lemma {:induction false} StripKeepsStart(s: string)
    requires Starts(s)
    ensures Starts(Strip(s))
    decreases |s|
  {
    assert StripLeft(s) == s;
    if |s| > 1 && IsSpace(s[|s| - 1]) {
      StripKeepsStart(s[..|s| - 1]);
    }
  }

  /** A text that begins with a letter does not normalise to nothing, so no group of rows is ever dropped. */
  lemma NormalizeKeepsStart(s: string)
    requires Starts(s)
    ensures Starts(Normalize(s))
  {
    hide CollapseBlanks, CollapseNewlines, Strip;
    var text := DropNul(ReplaceCr(ReplaceCrLf(s)));
    assert Starts(text);
    var lines := Split(text);
    PassesKeepStart(lines[0]);
    PassesKeepStart(CollapseBlanks(lines[0]));
    var joined := Join(NormalizeLines(lines));
    assert Starts(joined);
    PassesKeepStart(joined);
    PassesKeepStart(CollapseNewlines(joined));
  }

  lemma {:induction false} KeptStart(rows: seq<seq<string>>)
    ensures forall k :: 0 <= k < |Kept(rows)| ==> Starts(Kept(rows)[k].line)
  {
    if rows != [] { KeptStart(rows[..|rows| - 1]); }
  }

  lemma {:induction false} LinesStart(group: seq<Row>)
    requires group != [] && Starts(group[0].line)
    ensures Starts(Join(Lines(group)))
  {
    if |group| > 1 {
      var init := group[..|group| - 1];
      LinesStart(init);
      JoinAppends(Lines(init), group[|group| - 1].line);
    }
  }

  /** flush: the open group becomes a unit if its text is not empty; the group is emptied. */
  method Flush(units: seq<SheetUnit>, lines: seq<string>, rowStart: Option<nat>, rowEnd: Option<nat>, title: string,
               ghost open: seq<Row>)
    returns (more: seq<SheetUnit>)
    requires lines == Lines(open)
    requires open != [] ==> rowStart == Some(open[0].index) && rowEnd == Some(open[|open| - 1].index)
    requires open != [] ==> Starts(open[0].line)
    ensures more == if open == [] then units else units + [UnitOf(open, title)]
  {
    hide Normalize, Starts;
    more := units;
    if lines == [] || rowStart.None? || rowEnd.None? { return; }
    var text := Normalize(Join(lines));
    LinesStart(open);
    NormalizeKeepsStart(Join(lines));
    assert text != [] by { StartsIsText(text); }
    if text != [] {
      more := units + [SheetUnit(text, Title(title), rowStart.value, rowEnd.value)];
    }
  }

  lemma StartsIsText(s: string)
    requires Starts(s)
    ensures s != []
  {
  }

  // ---------------------------------------------------------------- the packing as a function

  function Groups(rows: seq<Row>): (groups: seq<seq<Row>>)
    ensures groups == [] <==> rows == []
    ensures groups != [] ==> groups[|groups| - 1] != []
  {
    if rows == [] then []
    else
      var row := rows[|rows| - 1];
      var groups := Groups(rows[..|rows| - 1]);
      var m := |groups| - 1;
      if groups != [] && Weight(groups[m]) + |row.line| + 1 <= UNIT_TARGET then groups[..m] + [groups[m] + [row]]
      else groups + [[row]]
  }

  lemma StepState(kept: seq<Row>, closed: seq<seq<Row>>, open: seq<Row>, row: Row)
    requires if open == [] then closed == [] && kept == [] else Groups(kept) == closed + [open]
    ensures Groups(kept + [row])
         == if open == [] then [[row]]
            else if Weight(open) + |row.line| + 1 > UNIT_TARGET then closed + [open] + [[row]]
            else closed + [open + [row]]
  {
    var more := kept + [row];
    assert more[..|more| - 1] == kept;
    if open != [] { assert (closed + [open])[..|closed|] == closed; }
  }

  lemma {:induction false} GroupsArePacked(rows: seq<Row>)
    ensures Packed(Groups(rows), rows)
  {
    hide Packed, Weight, Groups;
    if rows == [] {
      PackNone();
    } else {
      var init, row := rows[..|rows| - 1], rows[|rows| - 1];
      GroupsArePacked(init);
      assert rows == init + [row];
      if init == [] {
        StepState([], [], [], row);
        PackFirst(row);
      } else {
        var m := |Groups(init)| - 1;
        var closed, open := Groups(init)[..m], Groups(init)[m];
        assert Groups(init) == closed + [open];
        StepState(init, closed, open, row);
        if Weight(open) + |row.line| + 1 > UNIT_TARGET { PackInNext(closed, open, row, init); }
        else { PackInOpen(closed, open, row, init); }
      }
    }
  }

  function SheetGroups(sheet: Sheet): (groups: seq<seq<Row>>)
    ensures forall k :: 0 <= k < |groups| ==> groups[k] != []
  {
    GroupsArePacked(Kept(sheet.rows));
    assert forall k :: 0 <= k < |Groups(Kept(sheet.rows))| ==> IsGroup(Groups(Kept(sheet.rows))[k]);
    Groups(Kept(sheet.rows))
  }

  function SheetUnits(sheet: Sheet): seq<SheetUnit> {
    UnitsOf(SheetGroups(sheet), sheet.title)
  }

  function AllUnits(sheets: seq<Sheet>): seq<SheetUnit> {
    if sheets == [] then [] else AllUnits(sheets[..|sheets| - 1]) + SheetUnits(sheets[|sheets| - 1])
  }

  function LineTotal(rows: seq<Row>): nat {
    if rows == [] then 0 else LineTotal(rows[..|rows| - 1]) + |rows[|rows| - 1].line|
  }

  function SheetsTotal(sheets: seq<Sheet>): nat {
    if sheets == [] then 0 else SheetsTotal(sheets[..|sheets| - 1]) + LineTotal(Kept(sheets[|sheets| - 1].rows))
  }

  function TextTotal(units: seq<SheetUnit>): nat {
    if units == [] then 0 else TextTotal(units[..|units| - 1]) + |units[|units| - 1].text|
  }

  /** What parse_xlsx answers for the worksheets of a workbook. */
  function Parsed(sheets: seq<Sheet>): Result<seq<SheetUnit>> {
    var units := AllUnits(sheets);
    if SheetsTotal(sheets) > MAX_EXTRACTED then Err("knowledge_extracted_text_too_large")
    else if TextTotal(units) == 0 then Err("knowledge_no_extractable_text")
    else if TextTotal(units) > MAX_EXTRACTED then Err("knowledge_extracted_text_too_large")
    else Ok(units)
  }

  // ---------------------------------------------------------------- parse_xlsx

  lemma {:induction false} LineTotalGrows(rows: seq<seq<string>>, k: nat)
    requires k <= |rows|
    ensures LineTotal(Kept(rows[..k])) <= LineTotal(Kept(rows))
  {
    hide IsBlankRow, RowLine, Kept, LineTotal;
    if k < |rows| {
      var init := rows[..|rows| - 1];
      LineTotalGrows(init, k);
      assert init[..k] == rows[..k];
      KeptStep(rows, |rows| - 1);
      assert rows[..|rows| - 1 + 1] == rows;
      TotalGrows(Kept(init), Row(|rows|, RowLine(|rows|, rows[|rows| - 1])));
      assert Kept(init) + [] == Kept(init);
    } else {
      assert rows[..k] == rows;
    }
  }

  lemma {:induction false} SheetsTotalGrows(sheets: seq<Sheet>, k: nat)
    requires k <= |sheets|
    ensures SheetsTotal(sheets[..k]) <= SheetsTotal(sheets)
  {
    if k < |sheets| {
      var init := sheets[..|sheets| - 1];
      SheetsTotalGrows(init, k);
      assert init[..k] == sheets[..k];
    } else {
      assert sheets[..k] == sheets;
    }
  }

  lemma KeptStep(rows: seq<seq<string>>, i: nat)
    requires i < |rows|
    ensures Kept(rows[..i + 1])
         == Kept(rows[..i]) + if IsBlankRow(rows[i]) then [] else [Row(i + 1, RowLine(i + 1, rows[i]))]
  {
    assert rows[..i + 1][..i] == rows[..i];
  }

  /** The state of the row loop: units written for the closed groups, the open group in the row variables. */
  ghost predicate RowState(kept: seq<Row>, closed: seq<seq<Row>>, open: seq<Row>, lines: seq<string>,
                           rowStart: Option<nat>, rowEnd: Option<nat>, chars: nat) {
    && lines == Lines(open) && chars == Weight(open)
    && (if open == [] then rowStart == None && rowEnd == None && closed == [] && kept == []
        else rowStart == Some(open[0].index) && rowEnd == Some(open[|open| - 1].index)
             && Groups(kept) == closed + [open] && Starts(open[0].line))
  }

  lemma GrowOpen(open: seq<Row>, row: Row)
    ensures Lines(open + [row]) == Lines(open) + [row.line] && Weight(open + [row]) == Weight(open) + |row.line| + 1
    ensures open == [] ==> open + [row] == [row]
  {
    assert (open + [row])[..|open|] == open;
  }

  lemma RowLineStarts(index: nat, cells: seq<string>)
    ensures Starts(RowLine(index, cells))
  {
  }

  lemma CloseOpen(groups: seq<seq<Row>>, open: seq<Row>, title: string)
    requires open != [] && forall k :: 0 <= k < |groups| ==> groups[k] != []
    ensures UnitsOf(groups + [open], title) == UnitsOf(groups, title) + [UnitOf(open, title)]
  {
    assert (groups + [open])[..|groups|] == groups;
  }

  lemma FirstState()
    ensures RowState([], [], [], [], None, None, 0)
  {
  }

  lemma StateIs(kept: seq<Row>, closed: seq<seq<Row>>, open: seq<Row>, lines: seq<string>,
                rowStart: Option<nat>, rowEnd: Option<nat>, chars: nat)
    requires RowState(kept, closed, open, lines, rowStart, rowEnd, chars)
    ensures lines == Lines(open) && chars == Weight(open)
    ensures open == [] ==> rowStart == None && rowEnd == None && closed == [] && kept == []
    ensures open != [] ==> rowStart == Some(open[0].index) && rowEnd == Some(open[|open| - 1].index)
                           && Groups(kept) == closed + [open] && Starts(open[0].line)
  {
  }

  lemma StateFrom(kept: seq<Row>, closed: seq<seq<Row>>, open: seq<Row>, lines: seq<string>,
                  rowStart: Option<nat>, rowEnd: Option<nat>, chars: nat)
    requires open != [] && lines == Lines(open) && chars == Weight(open)
    requires rowStart == Some(open[0].index) && rowEnd == Some(open[|open| - 1].index)
    requires Groups(kept) == closed + [open] && Starts(open[0].line)
    ensures RowState(kept, closed, open, lines, rowStart, rowEnd, chars)
  {
  }

  /** The state after one more row, which goes into the open group or opens the first one. */
  lemma NextInOpen(kept: seq<Row>, closed: seq<seq<Row>>, open: seq<Row>, row: Row, rowStart: Option<nat>)
    requires if open == [] then closed == [] && kept == [] && rowStart == Some(row.index)
             else Groups(kept) == closed + [open] && Starts(open[0].line) && rowStart == Some(open[0].index)
    requires Starts(row.line) && (Weight(open) + |row.line| + 1 <= UNIT_TARGET || open == [])
    ensures RowState(kept + [row], closed, open + [row], Lines(open) + [row.line], rowStart, Some(row.index),
                     Weight(open) + |row.line| + 1)
  {
    hide RowState, Starts, Weight, Lines, Groups;
    StepState(kept, closed, open, row);
    GrowOpen(open, row);
    assert open == [] ==> closed + [open + [row]] == [[row]];
    StateFrom(kept + [row], closed, open + [row], Lines(open) + [row.line], rowStart, Some(row.index),
              Weight(open) + |row.line| + 1);
  }

  /** The state after one more row that the open group has no room for. */
  lemma NextInNew(kept: seq<Row>, closed: seq<seq<Row>>, open: seq<Row>, row: Row)
    requires open != [] && Groups(kept) == closed + [open] && Starts(row.line)
    requires Weight(open) + |row.line| + 1 > UNIT_TARGET
    ensures RowState(kept + [row], closed + [open], [] + [row], [] + [row.line], Some(row.index), Some(row.index),
                     |row.line| + 1)
  {
    hide RowState, Starts, Weight, Lines, Groups;
    StepState(kept, closed, open, row);
    GrowOpen([], row);
    NothingYet([]);
    StateFrom(kept + [row], closed + [open], [] + [row], [] + [row.line], Some(row.index), Some(row.index), |row.line| + 1);
  }

  method ParseSheet(sheet: Sheet, before: seq<SheetUnit>, totalBefore: nat)
    returns (units: seq<SheetUnit>, total: nat)
    requires totalBefore <= MAX_EXTRACTED
    ensures total > MAX_EXTRACTED <==> totalBefore + LineTotal(Kept(sheet.rows)) > MAX_EXTRACTED
    ensures total <= MAX_EXTRACTED ==> total == totalBefore + LineTotal(Kept(sheet.rows))
    ensures total <= MAX_EXTRACTED ==> units == before + SheetUnits(sheet)
  {
    hide RowState, Starts, RowLine, Groups, UnitOf, Kept, IsBlankRow, Lines, Weight, LineTotal, UnitsOf, SheetUnits, Trimmed;
    units, total := before, totalBefore;
    var lines: seq<string> := [];
    var rowStart: Option<nat> := None;
    var rowEnd: Option<nat> := None;
    var chars: nat := 0;
    ghost var closed: seq<seq<Row>> := [];
    ghost var open: seq<Row> := [];
    ghost var kept: seq<Row> := [];
    NothingYet(sheet.title);
    FirstState();
    for i := 0 to |sheet.rows|
      invariant kept == Kept(sheet.rows[..i])
      invariant RowState(kept, closed, open, lines, rowStart, rowEnd, chars)
      invariant forall k :: 0 <= k < |closed| ==> closed[k] != []
      invariant units == before + UnitsOf(closed, sheet.title)
      invariant total == totalBefore + LineTotal(kept) <= MAX_EXTRACTED
    {
      KeptStep(sheet.rows, i);
      var cells := sheet.rows[i];
      TrimLeavesNothingOfBlanks(cells);
      if IsBlankRow(Trimmed(cells)) { continue; }
      var line := RowLine(i + 1, cells);
      ghost var row := Row(i + 1, line);
      RowLineStarts(i + 1, cells);
      StateIs(kept, closed, open, lines, rowStart, rowEnd, chars);
      if lines != [] && chars + |line| + 1 > UNIT_TARGET {
        NextInNew(kept, closed, open, row);
        units := Flush(units, lines, rowStart, rowEnd, sheet.title, open);
        CloseOpen(closed, open, sheet.title);
        lines, rowStart, rowEnd, chars := [], None, None, 0;
        closed, open := closed + [open], [];
      } else {
        NextInOpen(kept, closed, open, row, if rowStart.None? then Some(i + 1) else rowStart);
      }
      if rowStart.None? { rowStart := Some(i + 1); }
      rowEnd := Some(i + 1);
      lines := lines + [line];
      chars := chars + |line| + 1;
      total := total + |line|;
      TotalGrows(kept, row);
      kept, open := kept + [row], open + [row];
      if total > MAX_EXTRACTED {
        LineTotalGrows(sheet.rows, i + 1);
        return;
      }
    }
    assert sheet.rows[..|sheet.rows|] == sheet.rows;
    StateIs(kept, closed, open, lines, rowStart, rowEnd, chars);
    units := Flush(units, lines, rowStart, rowEnd, sheet.title, open);
    if open != [] { CloseOpen(closed, open, sheet.title); }
    FinalState(sheet, closed, open);
  }

  lemma NothingYet(title: string)
    ensures Kept([]) == [] && Lines([]) == [] && Weight([]) == 0 && LineTotal([]) == 0 && UnitsOf([], title) == []
  {
  }

  lemma TotalGrows(rows: seq<Row>, row: Row)
    ensures LineTotal(rows + [row]) == LineTotal(rows) + |row.line|
  {
    assert (rows + [row])[..|rows|] == rows;
  }

  lemma FinalState(sheet: Sheet, closed: seq<seq<Row>>, open: seq<Row>)
    requires if open == [] then closed == [] && Kept(sheet.rows) == [] else Groups(Kept(sheet.rows)) == closed + [open]
    requires forall k :: 0 <= k < |closed| ==> closed[k] != []
    ensures SheetUnits(sheet) == if open == [] then [] else UnitsOf(closed + [open], sheet.title)
  {
  }

  method ParseXlsx(sheets: seq<Sheet>) returns (r: Result<seq<SheetUnit>>)
    ensures r == Parsed(sheets)
  {
    hide SheetUnits, Kept, LineTotal;
    var units: seq<SheetUnit> := [];
    var total := 0;
    for s := 0 to |sheets|
      invariant units == AllUnits(sheets[..s])
      invariant total == SheetsTotal(sheets[..s]) <= MAX_EXTRACTED
    {
      assert sheets[..s + 1][..s] == sheets[..s];
      units, total := ParseSheet(sheets[s], units, total);
      if total > MAX_EXTRACTED {
        SheetsTotalGrows(sheets, s + 1);
        return Err("knowledge_extracted_text_too_large");
      }
    }
    assert sheets[..|sheets|] == sheets;
    var characters := 0;
    for u := 0 to |units|
      invariant characters == TextTotal(units[..u])
    {
      assert units[..u + 1][..u] == units[..u];
      characters := characters + |units[u].text|;
    }
    assert units[..|units|] == units;
    if characters == 0 { return Err("knowledge_no_extractable_text"); }
    if characters > MAX_EXTRACTED { return Err("knowledge_extracted_text_too_large"); }
    return Ok(units);
  }

  // ---------------------------------------------------------------- what the units are

  lemma UnitsOfAt(groups: seq<seq<Row>>, title: string, k: nat)
    requires k < |groups| && forall g :: 0 <= g < |groups| ==> groups[g] != []
    ensures UnitsOf(groups, title)[k] == UnitOf(groups[k], title)
  {
    if k < |groups| - 1 { UnitsOfAt(groups[..|groups| - 1], title, k); }
  }

  /** A unit of several rows joins to fewer than 4800 characters, before it is normalised. */
  lemma SeveralRowsJoinShort(sheet: Sheet, k: nat)
    requires k < |SheetGroups(sheet)| && |SheetGroups(sheet)[k]| > 1
    ensures |Join(Lines(SheetGroups(sheet)[k]))| < 4800
  {
    GroupsArePacked(Kept(sheet.rows));
    assert IsGroup(SheetGroups(sheet)[k]);
    JoinedLength(SheetGroups(sheet)[k]);
  }

  /** Where a row of the flattened groups lives. */
  lemma {:induction false} Locate(groups: seq<seq<Row>>, j: nat) returns (k: nat, p: nat)
    requires j < |Flatten(groups)|
    ensures k < |groups| && p < |groups[k]| && groups[k][p] == Flatten(groups)[j]
  {
    var n := |groups| - 1;
    if j < |Flatten(groups[..n])| {
      k, p := Locate(groups[..n], j);
    } else {
      k, p := n, j - |Flatten(groups[..n])|;
    }
  }

  ghost predicate Increasing(rows: seq<Row>) {
    forall i, j :: 0 <= i < j < |rows| ==> rows[i].index < rows[j].index
  }

  lemma IncreasingParts(x: seq<Row>, y: seq<Row>)
    requires Increasing(x + y)
    ensures Increasing(x) && Increasing(y)
    ensures forall i, j :: 0 <= i < |x| && 0 <= j < |y| ==> x[i].index < y[j].index
    ensures y != [] ==> y[0].index <= y[|y| - 1].index
  {
    var all := x + y;
    forall i, j | 0 <= i < |x| && 0 <= j < |y| ensures x[i].index < y[j].index {
      assert all[i].index < all[|x| + j].index;
    }
    forall i, j | 0 <= i < j < |y| ensures y[i].index < y[j].index {
      assert all[|x| + i].index < all[|x| + j].index;
    }
    forall i, j | 0 <= i < j < |x| ensures x[i].index < x[j].index {
      assert all[i].index < all[j].index;
    }
  }

  lemma FlattenStep(groups: seq<seq<Row>>)
    requires groups != []
    ensures Flatten(groups) == Flatten(groups[..|groups| - 1]) + groups[|groups| - 1]
  {
  }

  /** Groups of increasing rows occupy increasing, disjoint ranges. */
  lemma {:induction false} GroupRanges(groups: seq<seq<Row>>, a: nat, b: nat)
    requires Increasing(Flatten(groups)) && a <= b < |groups| && groups[a] != [] && groups[b] != []
    ensures groups[b][0].index <= groups[b][|groups[b]| - 1].index
    ensures a < b ==> groups[a][|groups[a]| - 1].index < groups[b][0].index
    ensures Increasing(groups[b])
    decreases |groups|
  {
    hide Flatten, Increasing;
    var n := |groups| - 1;
    FlattenStep(groups);
    IncreasingParts(Flatten(groups[..n]), groups[n]);
    if b < n {
      GroupRanges(groups[..n], a, b);
    } else if a < b {
      LastIsFlattened(groups[..n], a);
    }
  }

  lemma {:induction false} LastIsFlattened(groups: seq<seq<Row>>, a: nat)
    requires a < |groups| && groups[a] != []
    ensures exists i :: 0 <= i < |Flatten(groups)| && Flatten(groups)[i] == groups[a][|groups[a]| - 1]
  {
    var n := |groups| - 1;
    var init := Flatten(groups[..n]);
    if a < n {
      LastIsFlattened(groups[..n], a);
      var i :| 0 <= i < |init| && init[i] == groups[a][|groups[a]| - 1];
      assert Flatten(groups)[i] == init[i];
    } else {
      assert Flatten(groups)[|init| + |groups[a]| - 1] == groups[a][|groups[a]| - 1];
    }
  }

  lemma GroupsFlatten(sheet: Sheet)
    ensures Flatten(SheetGroups(sheet)) == Kept(sheet.rows) && |SheetUnits(sheet)| == |SheetGroups(sheet)|
  {
    hide Groups, Kept;
    GroupsArePacked(Kept(sheet.rows));
  }

  /** A sheet's units, one for each group of its packing. */
  lemma SheetUnitAt(sheet: Sheet, k: nat)
    requires k < |SheetUnits(sheet)|
    ensures k < |SheetGroups(sheet)| == |SheetUnits(sheet)|
    ensures SheetUnits(sheet)[k] == UnitOf(SheetGroups(sheet)[k], sheet.title)
    ensures Flatten(SheetGroups(sheet)) == Kept(sheet.rows) && Increasing(Kept(sheet.rows))
  {
    hide Groups, Kept, UnitOf;
    GroupsArePacked(Kept(sheet.rows));
    KeptNumbers(sheet.rows);
    UnitsOfAt(SheetGroups(sheet), sheet.title, k);
  }

  /** Row ranges of a sheet's units increase and do not meet. */
  lemma RangesIncrease(sheet: Sheet, a: nat, b: nat)
    requires a < b < |SheetUnits(sheet)|
    ensures SheetUnits(sheet)[a].rowStart <= SheetUnits(sheet)[a].rowEnd < SheetUnits(sheet)[b].rowStart
  {
    hide SheetGroups, SheetUnits, Kept, Flatten, Increasing;
    SheetUnitAt(sheet, a);
    SheetUnitAt(sheet, b);
    GroupRanges(SheetGroups(sheet), a, a);
    GroupRanges(SheetGroups(sheet), a, b);
  }

  lemma {:induction false} KeptHas(rows: seq<seq<string>>, i: nat) returns (j: nat)
    requires 1 <= i <= |rows| && !IsBlankRow(rows[i - 1])
    ensures j < |Kept(rows)| && Kept(rows)[j] == Row(i, RowLine(i, rows[i - 1]))
  {
    if i < |rows| { j := KeptHas(rows[..|rows| - 1], i); } else { j := |Kept(rows)| - 1; }
  }

  /** Every row with some text is in the group of exactly one unit: the one whose range contains it. */
  lemma RowInOneUnit(sheet: Sheet, i: nat) returns (k: nat)
    requires 1 <= i <= |sheet.rows| && !IsBlankRow(sheet.rows[i - 1])
    ensures k < |SheetUnits(sheet)|
    ensures Row(i, RowLine(i, sheet.rows[i - 1])) in SheetGroups(sheet)[k]
    ensures SheetUnits(sheet)[k].rowStart <= i <= SheetUnits(sheet)[k].rowEnd
    ensures forall m :: 0 <= m < |SheetUnits(sheet)| && m != k
                        ==> i < SheetUnits(sheet)[m].rowStart || SheetUnits(sheet)[m].rowEnd < i
  {
    hide SheetGroups, SheetUnits, Kept, Flatten, RowLine, IsBlankRow;
    var j := KeptHas(sheet.rows, i);
    GroupsFlatten(sheet);
    var p;
    k, p := Locate(SheetGroups(sheet), j);
    SheetUnitAt(sheet, k);
    GroupRanges(SheetGroups(sheet), k, k);
    forall m | 0 <= m < |SheetUnits(sheet)| && m != k
      ensures i < SheetUnits(sheet)[m].rowStart || SheetUnits(sheet)[m].rowEnd < i {
      if m < k { RangesIncrease(sheet, m, k); } else { RangesIncrease(sheet, k, m); }
    }
  }

  lemma {:induction false} UnitsHaveText(groups: seq<seq<Row>>, title: string)
    requires forall k :: 0 <= k < |groups| ==> groups[k] != [] && Starts(groups[k][0].line)
    ensures TextTotal(UnitsOf(groups, title)) >= |groups|
  {
    hide Starts, Normalize;
    if groups != [] {
      var group := groups[|groups| - 1];
      LinesStart(group);
      NormalizeKeepsStart(Join(Lines(group)));
      StartsIsText(Normalize(Join(Lines(group))));
      UnitsHaveText(groups[..|groups| - 1], title);
    }
  }

  lemma {:induction false} FirstOfGroup(groups: seq<seq<Row>>, k: nat)
    requires k < |groups| && groups[k] != []
    requires forall j :: 0 <= j < |Flatten(groups)| ==> Starts(Flatten(groups)[j].line)
    ensures Starts(groups[k][0].line)
  {
    hide Starts;
    var init := Flatten(groups[..|groups| - 1]);
    assert Flatten(groups)[..|init|] == init;
    if k < |groups| - 1 {
      FirstOfGroup(groups[..|groups| - 1], k);
    } else {
      assert groups[k][0] == Flatten(groups)[|init|];
    }
  }

  lemma SheetText(sheet: Sheet)
    ensures TextTotal(SheetUnits(sheet)) == 0 <==> Kept(sheet.rows) == []
  {
    hide Groups, Starts, Kept;
    KeptStart(sheet.rows);
    GroupsArePacked(Kept(sheet.rows));
    var groups: seq<seq<Row>> := SheetGroups(sheet);
    forall k: nat | k < |groups| ensures Starts(groups[k][0].line) {
      FirstOfGroup(groups, k);
    }
    UnitsHaveText(groups, sheet.title);
    EmptyWhenNoRows(groups, Kept(sheet.rows));
  }

  lemma {:induction false} TextTotalSplits(a: seq<SheetUnit>, b: seq<SheetUnit>)
    ensures TextTotal(a + b) == TextTotal(a) + TextTotal(b)
  {
    if b == [] {
      assert a + b == a;
    } else {
      assert (a + b)[..|a + b| - 1] == a + b[..|b| - 1];
      TextTotalSplits(a, b[..|b| - 1]);
    }
  }

  lemma {:induction false} KeptNothing(rows: seq<seq<string>>)
    ensures Kept(rows) == [] <==> forall i :: 0 <= i < |rows| ==> IsBlankRow(rows[i])
  {
    hide IsBlankRow, RowLine;
    if rows != [] {
      var n := |rows| - 1;
      KeptNothing(rows[..n]);
      assert (forall i :: 0 <= i < |rows| ==> IsBlankRow(rows[i]))
             <==> (forall i :: 0 <= i < n ==> IsBlankRow(rows[..n][i])) && IsBlankRow(rows[n]);
    }
  }

  ghost predicate AllBlank(sheet: Sheet) {
    forall i :: 0 <= i < |sheet.rows| ==> IsBlankRow(sheet.rows[i])
  }

  lemma {:induction false} BlankWorkbook(sheets: seq<Sheet>)
    ensures TextTotal(AllUnits(sheets)) == 0 <==> forall s :: 0 <= s < |sheets| ==> AllBlank(sheets[s])
  {
    hide SheetUnits, IsBlankRow;
    if sheets != [] {
      var n := |sheets| - 1;
      BlankWorkbook(sheets[..n]);
      SheetText(sheets[n]);
      KeptNothing(sheets[n].rows);
      TextTotalSplits(AllUnits(sheets[..n]), SheetUnits(sheets[n]));
    }
  }

  lemma {:induction false} NothingKept(sheets: seq<Sheet>)
    requires forall s :: 0 <= s < |sheets| ==> AllBlank(sheets[s])
    ensures SheetsTotal(sheets) == 0
  {
    if sheets != [] {
      NothingKept(sheets[..|sheets| - 1]);
      KeptNothing(sheets[|sheets| - 1].rows);
    }
  }

  /** "No extractable text" is reported exactly when every row of every sheet is blank. */
  lemma NoTextExactlyWhenBlank(sheets: seq<Sheet>)
    ensures Parsed(sheets) == Err("knowledge_no_extractable_text")
            <==> forall s :: 0 <= s < |sheets| ==> AllBlank(sheets[s])
  {
    hide AllBlank, SheetUnits, Kept;
    BlankWorkbook(sheets);
    if forall s :: 0 <= s < |sheets| ==> AllBlank(sheets[s]) { NothingKept(sheets); }
    assert "knowledge_extracted_text_too_large" != "knowledge_no_extractable_text" by {
      assert "knowledge_extracted_text_too_large"[10] != "knowledge_no_extractable_text"[10];
    }
  }

  /** Every unit names its sheet, by at most 200 characters of the title. */
  lemma UnitsNameSheet(sheet: Sheet, k: nat)
    requires k < |SheetUnits(sheet)|
    ensures SheetUnits(sheet)[k].sheet == if |sheet.title| > 200 then sheet.title[..200] else sheet.title
  {
    hide SheetGroups, Normalize;
    SheetUnitAt(sheet, k);
  }

  /** A workbook is accepted exactly when some row has text and neither its rows nor its units have more than two million
      characters. */
  lemma AcceptedExactly(sheets: seq<Sheet>)
    ensures Parsed(sheets).Ok?
            <==> && (exists s :: 0 <= s < |sheets| && !AllBlank(sheets[s]))
                 && SheetsTotal(sheets) <= 2_000_000 && TextTotal(AllUnits(sheets)) <= 2_000_000
    ensures Parsed(sheets).Ok? ==> Parsed(sheets).value == AllUnits(sheets)
  {
    hide AllBlank, SheetUnits, Kept;
    BlankWorkbook(sheets);
  }
}
