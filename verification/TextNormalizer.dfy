/** normalize_extracted_text, pass by pass, and the exact set of texts it leaves alone. */
module TextNormalizer {
  import opened Whitespace

  // ---------------------------------------------------------------- the passes

  function ReplaceCrLf(s: string): string {
    if |s| >= 2 && s[0] == '\r' && s[1] == '\n' then "\n" + ReplaceCrLf(s[2..])
    else if s == [] then []
    else [s[0]] + ReplaceCrLf(s[1..])
  }

  function ReplaceCr(s: string): string {
    if s == [] then [] else [if s[0] == '\r' then '\n' else s[0]] + ReplaceCr(s[1..])
  }

  function DropNul(s: string): string {
    if s == [] then [] else (if s[0] == '\0' then [] else [s[0]]) + DropNul(s[1..])
  }

  /** str.split("\n"): always at least one line. */
  function Split(s: string): (lines: seq<string>)
    ensures lines != []
  {
    if s == [] then [[]]
    else
      var rest := Split(s[1..]);
      if s[0] == '\n' then [[]] + rest else [[s[0]] + rest[0]] + rest[1..]
  }

  function Join(lines: seq<string>): string
    requires lines != []
  {
    if |lines| == 1 then lines[0] else lines[0] + "\n" + Join(lines[1..])
  }

  predicate IsBlank(c: char) {
    c == ' ' || c == '\t' || c as int == 0x0b || c as int == 0x0c
  }

  /** A run of blanks becomes one space. */
  function CollapseBlanks(s: string): string {
    if s == [] then []
    else
      var n := |s| - 1;
      var before := CollapseBlanks(s[..n]);
      if !IsBlank(s[n]) then before + [s[n]]
      else if n > 0 && IsBlank(s[n - 1]) then before
      else before + " "
  }

  /** Three or more newlines become two. */
  function CollapseNewlines(s: string): string {
    if s == [] then []
    else
      var n := |s| - 1;
      var before := CollapseNewlines(s[..n]);
      if n >= 2 && s[n] == '\n' && s[n - 1] == '\n' && s[n - 2] == '\n' then before else before + [s[n]]
  }

  function NormalizeLine(line: string): string {
    Strip(CollapseBlanks(line))
  }

  function NormalizeLines(lines: seq<string>): (r: seq<string>)
    ensures |r| == |lines|
  {
    if lines == [] then [] else [NormalizeLine(lines[0])] + NormalizeLines(lines[1..])
  }

  function Normalize(value: string): string {
    var text := DropNul(ReplaceCr(ReplaceCrLf(value)));
    Strip(CollapseNewlines(Join(NormalizeLines(Split(text)))))
  }

  // ---------------------------------------------------------------- what a normalised text looks like

  /** Characters that never survive. */
  predicate Survives(c: char) {
    c != '\r' && c != '\0' && (IsBlank(c) ==> c == ' ')
  }

  /** No double space, and no white space beside a newline other than another newline. */
  predicate PairOk(a: char, b: char) {
    && !(a == ' ' && b == ' ')
    && (a == '\n' && IsSpace(b) ==> b == '\n')
    && (b == '\n' && IsSpace(a) ==> a == '\n')
  }

  ghost predicate Tidy(t: string) {
    && (forall i :: 0 <= i < |t| ==> Survives(t[i]))
    && (forall i :: 0 <= i < |t| - 1 ==> PairOk(t[i], t[i + 1]))
  }

  ghost predicate NoTripleNewline(t: string) {
    forall i :: 0 <= i < |t| - 2 ==> !(t[i] == '\n' && t[i + 1] == '\n' && t[i + 2] == '\n')
  }

  ghost predicate IsNormal(t: string) {
    Tidy(t) && NoTripleNewline(t) && IsStripped(t)
  }

  // ---------------------------------------------------------------- the output is normal

  /** No carriage return and no NUL; a line has no newline either. */
  ghost predicate NoControl(s: string) {
    forall i :: 0 <= i < |s| ==> s[i] != '\r' && s[i] != '\0'
  }

  ghost predicate OneLine(s: string) {
    NoControl(s) && forall i :: 0 <= i < |s| ==> s[i] != '\n'
  }

  ghost predicate NoReturn(s: string) {
    forall i :: 0 <= i < |s| ==> s[i] != '\r'
  }

  lemma {:induction false} ReturnsGone(s: string)
    ensures NoReturn(ReplaceCr(s))
  {
    if s != [] { ReturnsGone(s[1..]); }
  }

  lemma {:induction false} NulsGone(s: string)
    requires NoReturn(s)
    ensures NoControl(DropNul(s))
  {
    if s != [] {
      assert NoReturn(s[1..]);
      NulsGone(s[1..]);
    }
  }

  lemma {:induction false} LinesHaveNoNewline(s: string)
    requires NoControl(s)
    ensures forall i :: 0 <= i < |Split(s)| ==> OneLine(Split(s)[i])
  {
    if s != [] {
      assert NoControl(s[1..]);
      LinesHaveNoNewline(s[1..]);
      var rest := Split(s[1..]);
      if s[0] != '\n' { assert OneLine([s[0]] + rest[0]); }
    }
  }

  lemma {:induction false} CollapsedIsTidy(line: string)
    requires OneLine(line)
    ensures Tidy(CollapseBlanks(line)) && OneLine(CollapseBlanks(line))
    ensures CollapseBlanks(line) == [] <==> line == []
    ensures line != [] ==> CollapseBlanks(line)[|CollapseBlanks(line)| - 1]
                           == if IsBlank(line[|line| - 1]) then ' ' else line[|line| - 1]
  {
    if line != [] {
      var n := |line| - 1;
      assert OneLine(line[..n]);
      CollapsedIsTidy(line[..n]);
      var before := CollapseBlanks(line[..n]);
      var last := if IsBlank(line[n]) then ' ' else line[n];
      if !(IsBlank(line[n]) && n > 0 && IsBlank(line[n - 1])) {
        assert CollapseBlanks(line) == before + [last];
        JoinTidy(before, [last]);
      }
    }
  }

  lemma MiddleIsTidy(t: string, from: nat, to: nat)
    requires from <= to <= |t| && Tidy(t)
    ensures Tidy(t[from..to])
    ensures NoTripleNewline(t) ==> NoTripleNewline(t[from..to])
  {
  }

  lemma LineIsTidy(line: string)
    requires OneLine(line)
    ensures Tidy(NormalizeLine(line)) && IsStripped(NormalizeLine(line)) && OneLine(NormalizeLine(line))
  {
    CollapsedIsTidy(line);
    var from, to := StripIsMiddle(CollapseBlanks(line));
    MiddleIsTidy(CollapseBlanks(line), from, to);
  }

  lemma JoinTidy(a: string, b: string)
    requires Tidy(a) && Tidy(b) && (a != [] && b != [] ==> PairOk(a[|a| - 1], b[0]))
    ensures Tidy(a + b)
  {
  }

  predicate OpensLine(t: string) {
    t == [] || !IsSpace(t[0]) || t[0] == '\n'
  }

  lemma JoinLines(head: string, tail: string)
    requires Tidy(head) && IsStripped(head) && Tidy(tail) && OpensLine(tail)
    ensures Tidy(head + "\n" + tail) && OpensLine(head + "\n" + tail)
  {
    JoinTidy("\n", tail);
    JoinTidy(head, "\n" + tail);
    assert head + "\n" + tail == head + ("\n" + tail);
  }

  lemma {:induction false} JoinedIsTidy(lines: seq<string>)
    requires lines != []
    requires forall i :: 0 <= i < |lines| ==> OneLine(lines[i])
    ensures Tidy(Join(NormalizeLines(lines))) && OpensLine(Join(NormalizeLines(lines)))
  {
    hide OneLine, Tidy, NormalizeLine, IsSpace;
    LineIsTidy(lines[0]);
    if |lines| > 1 {
      JoinedIsTidy(lines[1..]);
      assert NormalizeLines(lines)[1..] == NormalizeLines(lines[1..]);
      JoinLines(NormalizeLine(lines[0]), Join(NormalizeLines(lines[1..])));
    }
  }

  /** How many newlines end the text, capped at two. */
  function Ending(s: string): nat {
    if s == [] || s[|s| - 1] != '\n' then 0
    else if |s| == 1 || s[|s| - 2] != '\n' then 1
    else 2
  }

  lemma {:induction false} CollapsedNewlines(s: string)
    requires Tidy(s)
    ensures var t := CollapseNewlines(s);
            && Tidy(t) && NoTripleNewline(t) && Ending(t) == Ending(s)
            && (t == [] <==> s == []) && (s != [] ==> t[|t| - 1] == s[|s| - 1])
  {
    if s != [] {
      var n := |s| - 1;
      CollapsedNewlines(s[..n]);
      JoinTidy(CollapseNewlines(s[..n]), [s[n]]);
    }
  }

  /** The result has no break but newline, no blank run, no white space at a line's ends, at most one empty
      line in a row and nothing to strip. */
  lemma NormalizeIsNormal(value: string)
    ensures IsNormal(Normalize(value))
  {
    var text := DropNul(ReplaceCr(ReplaceCrLf(value)));
    ReturnsGone(ReplaceCrLf(value));
    NulsGone(ReplaceCr(ReplaceCrLf(value)));
    LinesHaveNoNewline(text);
    JoinedIsTidy(Split(text));
    var joined := Join(NormalizeLines(Split(text)));
    CollapsedNewlines(joined);
    var from, to := StripIsMiddle(CollapseNewlines(joined));
    MiddleIsTidy(CollapseNewlines(joined), from, to);
  }

  // ---------------------------------------------------------------- a normal text is left alone

  lemma {:induction false} NothingToReplace(t: string)
    requires forall i :: 0 <= i < |t| ==> Survives(t[i])
    ensures ReplaceCrLf(t) == t && ReplaceCr(t) == t && DropNul(t) == t
  {
    if t != [] {
      NothingToReplace(t[1..]);
    }
  }

  lemma {:induction false} JoinSplit(t: string)
    ensures Join(Split(t)) == t
  {
    if t != [] {
      JoinSplit(t[1..]);
      var rest := Split(t[1..]);
      if t[0] == '\n' {
        assert Split(t)[1..] == rest;
      } else if |rest| > 1 {
        assert Split(t)[1..] == rest[1..];
      }
    }
  }

  lemma CollapseKeepsLast(before: string, c: char)
    requires CollapseBlanks(before) == before
    requires IsBlank(c) ==> c == ' ' && (before != [] ==> !IsBlank(before[|before| - 1]))
    ensures CollapseBlanks(before + [c]) == before + [c]
  {
    hide IsBlank;
    assert (before + [c])[..|before|] == before;
  }

  lemma TidyLast(t: string)
    requires t != [] && Tidy(t)
    ensures Tidy(t[..|t| - 1])
    ensures IsBlank(t[|t| - 1]) ==> t[|t| - 1] == ' ' && (|t| > 1 ==> !IsBlank(t[|t| - 2]))
  {
    MiddleIsTidy(t, 0, |t| - 1);
    assert |t| > 1 ==> PairOk(t[|t| - 2], t[|t| - 1]);
  }

  lemma {:induction false} NothingToCollapse(t: string)
    requires Tidy(t)
    ensures CollapseBlanks(t) == t
  {
    hide Tidy, IsBlank, CollapseBlanks;
    if t == [] {
      CollapseNothing();
    } else {
      TidyLast(t);
      NothingToCollapse(t[..|t| - 1]);
      CollapseKeepsLast(t[..|t| - 1], t[|t| - 1]);
      assert t == t[..|t| - 1] + [t[|t| - 1]];
    }
  }

  lemma CollapseNothing()
    ensures CollapseBlanks([]) == []
  {
  }

  lemma {:induction false} NothingTripled(t: string)
    requires NoTripleNewline(t)
    ensures CollapseNewlines(t) == t
  {
    if t != [] {
      var n := |t| - 1;
      NothingTripled(t[..n]);
      assert t == t[..n] + [t[n]];
    }
  }

  /** Every line but the first is stripped; the first is stripped at its end. */
  lemma {:induction false} LinesAreFixed(t: string)
    requires Tidy(t) && (t == [] || !IsSpace(t[|t| - 1]) || t[|t| - 1] == '\n')
    ensures forall i :: 0 <= i < |Split(t)| ==> Tidy(Split(t)[i])
    ensures forall i :: 1 <= i < |Split(t)| ==> IsStripped(Split(t)[i])
    ensures var first := Split(t)[0];
            && (first != [] ==> !IsSpace(first[|first| - 1]) && t != [] && first[0] == t[0])
            && (first == [] ==> t == [] || t[0] == '\n')
  {
    if t != [] {
      var rest := Split(t[1..]);
      LinesAreFixed(t[1..]);
      if t[0] != '\n' {
        var first := rest[0];
        if first != [] {
          JoinTidy([t[0]], first);
        } else if |t| > 1 {
          assert PairOk(t[0], t[1]);
        }
      } else if |t| > 1 {
        assert PairOk(t[0], t[1]);
      }
    }
  }

  lemma {:induction false} FixedLines(lines: seq<string>)
    requires forall i :: 0 <= i < |lines| ==> Tidy(lines[i]) && IsStripped(lines[i])
    ensures NormalizeLines(lines) == lines
  {
    if lines != [] {
      NothingToCollapse(lines[0]);
      StripFixesStripped(lines[0]);
      FixedLines(lines[1..]);
    }
  }

  lemma NormalLines(t: string)
    requires IsNormal(t)
    ensures NormalizeLines(Split(t)) == Split(t)
  {
    hide Split;
    LinesAreFixed(t);
    FixedLines(Split(t));
  }

  lemma NormalIsFixed(t: string)
    requires IsNormal(t)
    ensures Normalize(t) == t
  {
    hide Split, Join, NormalizeLines, CollapseNewlines, Strip, ReplaceCr, ReplaceCrLf, DropNul;
    NothingToReplace(t);
    NormalLines(t);
    JoinSplit(t);
    NothingTripled(t);
    StripFixesStripped(t);
  }

  /** The fixed points of normalisation are exactly the normal texts. */
  lemma FixedExactlyWhenNormal(t: string)
    ensures Normalize(t) == t <==> IsNormal(t)
  {
    if IsNormal(t) { NormalIsFixed(t); }
    if Normalize(t) == t { NormalizeIsNormal(t); }
  }

  /** Normalising twice changes nothing, so the chunker's second normalisation is free. */
  lemma NormalizeTwice(value: string)
    ensures Normalize(Normalize(value)) == Normalize(value)
  {
    NormalizeIsNormal(value);
    NormalIsFixed(Normalize(value));
  }
}
