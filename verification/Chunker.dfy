/** chunk_units: overlapping windows cut at natural boundaries, and what they add up to. */
module Chunker {
  import opened Outcomes
  import opened Whitespace
  import opened TextNormalizer

  const CHUNK_MAX := 1200
  const OVERLAP := 150
  const MAX_CHUNKS := 512
  const SEPARATORS := ["\n\n", "\n", ". ", " "]

  datatype Window = Window(start: nat, end: nat)

  // ---------------------------------------------------------------- the boundary search

  predicate OccursAt(text: string, sep: string, i: int, hi: int) {
    0 <= i && i + |sep| <= hi <= |text| && text[i..i + |sep|] == sep
  }

  /** text.rfind(sep, lo, hi): the last occurrence inside text[lo..hi], or -1. */
  function RFind(text: string, sep: string, lo: nat, hi: nat): (r: int)
    requires hi <= |text| && sep != []
    ensures r == -1 || lo <= r <= hi - |sep|
    decreases hi
  {
    if hi < lo + |sep| then -1
    else if text[hi - |sep|..hi] == sep then hi - |sep|
    else RFind(text, sep, lo, hi - 1)
  }

  lemma {:induction false} RFindIsLast(text: string, sep: string, lo: nat, hi: nat)
    requires hi <= |text| && sep != []
    ensures RFind(text, sep, lo, hi) >= 0 ==> OccursAt(text, sep, RFind(text, sep, lo, hi), hi)
    ensures forall i :: lo <= i && RFind(text, sep, lo, hi) < i ==> !OccursAt(text, sep, i, hi)
    decreases hi
  {
    if hi >= lo + |sep| && text[hi - |sep|..hi] != sep {
      RFindIsLast(text, sep, lo, hi - 1);
      forall i | lo <= i && RFind(text, sep, lo, hi) < i ensures !OccursAt(text, sep, i, hi) {
        assert !OccursAt(text, sep, i, hi - 1);
      }
    }
  }

  /** The loop over separators: the first one that occurs past the floor decides. */
  function BoundaryFrom(text: string, floor: nat, hardEnd: nat, seps: seq<string>): (end: nat)
    requires hardEnd <= |text| && forall k :: 0 <= k < |seps| ==> seps[k] != []
    ensures end == hardEnd || floor < end <= hardEnd
  {
    if seps == [] then hardEnd
    else
      var at := RFind(text, seps[0], floor, hardEnd);
      if at >= floor then at + |seps[0]| else BoundaryFrom(text, floor, hardEnd, seps[1..])
  }

  /** The cut falls right after the last occurrence, past the floor, of the first separator that has one there;
      only when none has one does it fall on the hard end. */
  ghost predicate CutAfter(text: string, floor: nat, hardEnd: nat, sep: string, end: nat) {
    && OccursAt(text, sep, end - |sep|, hardEnd) && floor <= end - |sep|
    && forall i :: end - |sep| < i ==> !OccursAt(text, sep, i, hardEnd)
  }

  ghost predicate Absent(text: string, floor: nat, hardEnd: nat, sep: string) {
    forall i :: floor <= i ==> !OccursAt(text, sep, i, hardEnd)
  }

  lemma {:induction false} BoundaryIsBest(text: string, floor: nat, hardEnd: nat, seps: seq<string>)
    requires hardEnd <= |text| && forall k :: 0 <= k < |seps| ==> seps[k] != []
    ensures var end := BoundaryFrom(text, floor, hardEnd, seps);
            || (end == hardEnd && forall k :: 0 <= k < |seps| ==> Absent(text, floor, hardEnd, seps[k]))
            || (exists k :: 0 <= k < |seps| && CutAfter(text, floor, hardEnd, seps[k], end)
                            && forall j :: 0 <= j < k ==> Absent(text, floor, hardEnd, seps[j]))
  {
    if seps != [] {
      var at := RFind(text, seps[0], floor, hardEnd);
      RFindIsLast(text, seps[0], floor, hardEnd);
      if at >= floor {
        assert CutAfter(text, floor, hardEnd, seps[0], at + |seps[0]|);
      } else {
        assert Absent(text, floor, hardEnd, seps[0]);
        BoundaryIsBest(text, floor, hardEnd, seps[1..]);
        var end := BoundaryFrom(text, floor, hardEnd, seps[1..]);
        if k :| 0 <= k < |seps[1..]| && CutAfter(text, floor, hardEnd, seps[1..][k], end)
                && forall j :: 0 <= j < k ==> Absent(text, floor, hardEnd, seps[1..][j]) {
          assert CutAfter(text, floor, hardEnd, seps[k + 1], end);
          forall j | 0 <= j < k + 1 ensures Absent(text, floor, hardEnd, seps[j]) {
            if j > 0 { assert seps[j] == seps[1..][j - 1]; }
          }
        } else {
          forall j | 0 <= j < |seps| ensures Absent(text, floor, hardEnd, seps[j]) {
            if j > 0 { assert seps[j] == seps[1..][j - 1]; }
          }
        }
      }
    }
  }

  function FindBoundary(text: string, start: nat, hardEnd: nat): (end: nat)
    requires hardEnd <= |text|
    ensures end <= |text|
  {
    if hardEnd >= |text| then |text| else BoundaryFrom(text, start + CHUNK_MAX / 2, hardEnd, SEPARATORS)
  }

  function Min(a: nat, b: nat): nat {
    if a < b then a else b
  }

  function WindowEnd(text: string, start: nat): nat
    requires start < |text|
  {
    FindBoundary(text, start, Min(|text|, start + CHUNK_MAX))
  }

  /** A window that is not the last is longer than half the maximum: the search never falls behind its start. */
  lemma WindowEndBounds(text: string, start: nat)
    requires start < |text|
    ensures start < WindowEnd(text, start) <= |text|
    ensures WindowEnd(text, start) - start <= CHUNK_MAX
    ensures WindowEnd(text, start) < |text| ==> WindowEnd(text, start) - start > CHUNK_MAX / 2
    ensures WindowEnd(text, start) < |text| <==> |text| - start > CHUNK_MAX
    ensures WindowEnd(text, start) == FindBoundary(text, start, Min(|text|, start + CHUNK_MAX))
  {
  }

  // ---------------------------------------------------------------- the windows of a text

  function Windows(text: string, start: nat): seq<Window>
    decreases |text| - start
  {
    if start >= |text| then []
    else
      WindowEndBounds(text, start);
      var end := WindowEnd(text, start);
      if end >= |text| then [Window(start, end)] else [Window(start, end)] + Windows(text, end - OVERLAP)
  }

  function Slice(text: string, w: Window): string {
    if w.start <= w.end <= |text| then text[w.start..w.end] else []
  }

  function Contents(text: string, windows: seq<Window>): seq<string> {
    if windows == [] then []
    else (var content := Strip(Slice(text, windows[0])); if content == [] then [] else [content]) + Contents(text, windows[1..])
  }

  /** The windows without their overlap with the window before. */
  function Advances(text: string, windows: seq<Window>): string {
    if windows == [] then []
    else Slice(text, Window(windows[0].start + OVERLAP, windows[0].end)) + Advances(text, windows[1..])
  }

  /** The first window, then each later one without its first 150 characters. */
  function Rebuild(text: string, windows: seq<Window>): string {
    if windows == [] then [] else Slice(text, windows[0]) + Advances(text, windows[1..])
  }

  /** Bounded windows from `start` to n, each but the last longer than half the maximum, each starting exactly
      150 characters before the end of the one before it and ending no earlier. */
  ghost predicate Chain(windows: seq<Window>, start: nat, n: nat)
    decreases |windows|
  {
    && windows != []
    && windows[0].start == start < windows[0].end <= n
    && windows[0].end - start <= CHUNK_MAX
    && if |windows| == 1 then windows[0].end == n && n - start <= CHUNK_MAX
       else
         && windows[0].end < n && n - start > CHUNK_MAX && windows[0].end - start > CHUNK_MAX / 2
         && windows[0].end <= windows[1].end
         && Chain(windows[1..], windows[0].end - OVERLAP, n)
  }

  lemma {:induction false} WindowsChain(text: string, start: nat)
    requires start < |text|
    ensures Chain(Windows(text, start), start, |text|)
    ensures Windows(text, start)[0].end == WindowEnd(text, start)
    decreases |text| - start
  {
    hide WindowEnd, FindBoundary;
    WindowEndBounds(text, start);
    var end := WindowEnd(text, start);
    if end < |text| {
      WindowsChain(text, end - OVERLAP);
      WindowEndBounds(text, end - OVERLAP);
      assert Windows(text, start)[1..] == Windows(text, end - OVERLAP);
    }
  }

  /** The chain, window by window: overlap exactly 150, starts at least 451 apart. */
  lemma {:induction false} ChainAt(windows: seq<Window>, start: nat, n: nat, i: nat)
    requires Chain(windows, start, n) && i < |windows|
    ensures windows[i].start < windows[i].end <= n && windows[i].end - windows[i].start <= CHUNK_MAX
    ensures i + 1 < |windows| ==> windows[i].end - windows[i + 1].start == OVERLAP
    ensures i + 1 < |windows| ==> windows[i + 1].start - windows[i].start >= 451
    ensures i + 1 == |windows| ==> windows[i].end == n
    decreases i
  {
    if i > 0 {
      ChainAt(windows[1..], windows[0].end - OVERLAP, n, i - 1);
    }
  }

  lemma SlicesMeet(text: string, start: nat, cut: nat, second: Window, rest: string)
    requires OVERLAP <= cut && start <= cut - OVERLAP && second.start == cut - OVERLAP && cut <= second.end <= |text|
    requires Slice(text, second) + rest == text[second.start..]
    ensures Slice(text, Window(start, cut)) + (Slice(text, Window(cut, second.end)) + rest) == text[start..]
  {
    var before, inside := text[second.start..cut], text[cut..second.end];
    SplitAt(text, second.start, cut, second.end);
    SplitAt(text, second.start, cut, |text|);
    SplitAt(text, start, cut, |text|);
    Assoc(before, inside, rest);
    CancelPrefix(before, inside + rest, text[cut..]);
  }

  lemma Assoc(a: string, b: string, c: string)
    ensures (a + b) + c == a + (b + c)
  {
  }

  lemma CancelPrefix(a: string, b: string, c: string)
    requires a + b == a + c
    ensures b == c
  {
    assert b == (a + b)[|a|..] && c == (a + c)[|a|..];
  }

  lemma SubSlice(text: string, start: nat, end: nat, from: nat, to: nat)
    requires start <= end <= |text| && from <= to <= end - start
    ensures text[start..end][from..to] == text[start + from..start + to]
  {
    var a, b := text[start..end][from..to], text[start + from..start + to];
    forall i | 0 <= i < |a| ensures a[i] == b[i] {
      assert a[i] == text[start..end][from + i] == text[start + from + i];
    }
  }

  lemma SplitAt(text: string, a: nat, b: nat, c: nat)
    requires a <= b <= c <= |text|
    ensures text[a..c] == text[a..b] + text[b..c]
    ensures text[a..|text|] == text[a..] && text[b..|text|] == text[b..]
  {
  }

  lemma {:induction false} ChainCovers(text: string, windows: seq<Window>, start: nat)
    requires Chain(windows, start, |text|)
    ensures Rebuild(text, windows) == text[start..]
    decreases |windows|
  {
    if |windows| > 1 {
      ChainCovers(text, windows[1..], windows[0].end - OVERLAP);
      SlicesMeet(text, start, windows[0].end, windows[1], Advances(text, windows[1..][1..]));
    }
  }

  /** Reconstruction: no character of the text is lost, and none repeated beyond the overlap. */
  lemma WindowsReconstruct(text: string)
    requires text != []
    ensures Rebuild(text, Windows(text, 0)) == text
  {
    WindowsChain(text, 0);
    ChainCovers(text, Windows(text, 0), 0);
  }

  /** Windows have at most 1200 characters, overlap by exactly 150, and start at least 451 apart. */
  lemma WindowsOverlap(text: string, i: nat)
    requires i < |Windows(text, 0)|
    ensures var ws := Windows(text, 0);
            && ws[i].start < ws[i].end <= |text| && ws[i].end - ws[i].start <= 1200
            && (i + 1 < |ws| ==> ws[i].end - ws[i + 1].start == 150 && ws[i + 1].start - ws[i].start >= 451)
            && (i + 1 == |ws| ==> ws[i].end == |text|)
  {
    WindowsChain(text, 0);
    ChainAt(Windows(text, 0), 0, |text|, i);
  }

  lemma {:induction false} ChainLength(windows: seq<Window>, start: nat, n: nat)
    requires Chain(windows, start, n)
    ensures |windows| == 1 <==> n - start <= CHUNK_MAX
    ensures n - start > CHUNK_MAX ==> (|windows| - 2) * 451 < n - start - CHUNK_MAX
    decreases |windows|
  {
    if |windows| > 1 { ChainLength(windows[1..], windows[0].end - OVERLAP, n); }
  }

  /** A text of up to 1200 characters is one window; a longer one has at most 1 + ceil((n - 1200) / 451). */
  lemma WindowCount(text: string)
    requires text != []
    ensures |Windows(text, 0)| == 1 <==> |text| <= 1200
    ensures |text| > 1200 ==> |Windows(text, 0)| <= 1 + (|text| - 1200 + 450) / 451
  {
    WindowsChain(text, 0);
    ChainLength(Windows(text, 0), 0, |text|);
  }

  /** A window with a character that is not white space keeps it: its content is a piece of the text around it. */
  lemma WindowKeeps(text: string, w: Window, i: nat) returns (a: nat, b: nat)
    requires w.start <= i < w.end <= |text| && !IsSpace(text[i])
    ensures w.start <= a <= i < b <= w.end && Strip(Slice(text, w)) == text[a..b]
  {
    hide IsSpace, Strip;
    var slice := Slice(text, w);
    var from, to := StripIsMiddle(slice);
    assert slice == text[w.start..w.end] && slice[i - w.start] == text[i];
    a, b := w.start + from, w.start + to;
    SubSlice(text, w.start, w.end, from, to);
  }

  lemma {:induction false} ChainKeeps(text: string, windows: seq<Window>, start: nat, i: nat) returns (k: nat, a: nat, b: nat)
    requires Chain(windows, start, |text|) && start <= i < |text| && !IsSpace(text[i])
    ensures k < |Contents(text, windows)| && a <= i < b <= |text| && Contents(text, windows)[k] == text[a..b]
    decreases |windows|
  {
    hide IsSpace, Strip, Slice;
    if i < windows[0].end {
      k := 0;
      a, b := WindowKeeps(text, windows[0], i);
    } else {
      k, a, b := ChainKeeps(text, windows[1..], windows[0].end - OVERLAP, i);
      if Strip(Slice(text, windows[0])) != [] { k := k + 1; }
    }
  }

  /** Stripping the windows loses white space only: every other character of the text is inside a chunk's content,
      which is a piece of the text. */
  lemma OnlySpaceIsLost(text: string, i: nat) returns (k: nat, a: nat, b: nat)
    requires i < |text| && !IsSpace(text[i])
    ensures var contents := Contents(text, Windows(text, 0));
            k < |contents| && a <= i < b <= |text| && contents[k] == text[a..b]
  {
    WindowsChain(text, 0);
    k, a, b := ChainKeeps(text, Windows(text, 0), 0, i);
  }

  // ---------------------------------------------------------------- chunk_units

  datatype Unit = Unit(text: string, provenance: nat)
  datatype Chunk = Chunk(content: string, provenance: nat)

  function Tag(contents: seq<string>, provenance: nat): (chunks: seq<Chunk>)
    ensures |chunks| == |contents|
  {
    seq(|contents|, i requires 0 <= i < |contents| => Chunk(contents[i], provenance))
  }

  function UnitChunks(unit: Unit): seq<Chunk> {
    var text := Normalize(unit.text);
    Pending(text, 0, unit.provenance)
  }

  function AllChunks(units: seq<Unit>): seq<Chunk> {
    if units == [] then [] else AllChunks(units[..|units| - 1]) + UnitChunks(units[|units| - 1])
  }

  function Chunked(units: seq<Unit>): Result<seq<Chunk>> {
    var all := AllChunks(units);
    if |all| > MAX_CHUNKS then Err("knowledge_too_many_chunks")
    else if all == [] then Err("knowledge_no_extractable_text")
    else Ok(all)
  }

  lemma {:induction false} MoreUnitsMoreChunks(units: seq<Unit>, k: nat)
    requires k <= |units|
    ensures |AllChunks(units[..k])| <= |AllChunks(units)|
  {
    if k < |units| {
      var shorter := units[..|units| - 1];
      MoreUnitsMoreChunks(shorter, k);
      assert shorter[..k] == units[..k];
    } else {
      assert units[..k] == units;
    }
  }

  lemma TagOne(content: string, provenance: nat, rest: seq<string>)
    ensures Tag([content] + rest, provenance) == [Chunk(content, provenance)] + Tag(rest, provenance)
    ensures Tag([], provenance) == []
  {
  }

  /** The chunks still to come when the loop stands at `start`. */
  function Pending(text: string, start: nat, provenance: nat): seq<Chunk> {
    Tag(Contents(text, Windows(text, start)), provenance)
  }

  lemma PendingStep(text: string, start: nat, end: nat, content: string, provenance: nat)
    requires start < |text| && end == WindowEnd(text, start) && start < end
    requires content == Strip(text[start..end])
    ensures var now := if content == [] then [] else [Chunk(content, provenance)];
            Pending(text, start, provenance)
            == if end >= |text| then now else now + Pending(text, end - OVERLAP, provenance)
  {
    hide WindowEnd, Strip;
    WindowEndBounds(text, start);
    var rest := if end >= |text| then [] else Windows(text, end - OVERLAP);
    assert Windows(text, start) == [Window(start, end)] + rest;
    assert Windows(text, start)[1..] == rest;
    TagOne(content, provenance, Contents(text, rest));
  }

  lemma NonePending(text: string, start: nat, provenance: nat)
    requires start >= |text|
    ensures Pending(text, start, provenance) == []
  {
  }

  lemma MoveFirst(a: seq<Chunk>, c: Chunk, b: seq<Chunk>)
    ensures a + ([c] + b) == (a + [c]) + b
    ensures a + [c] + [] == a + [c] && a + [] == a && [] + b == b
  {
  }

  /** The windows of one text, with the source's fallbacks: `end <= start` and `start + 1` never fire, so the
      contents are those of the windows above; the loop stops as soon as there are too many chunks. */
  method ChunkText(text: string, provenance: nat, before: seq<Chunk>) returns (chunks: seq<Chunk>)
    requires |before| <= MAX_CHUNKS
    ensures |before + Pending(text, 0, provenance)| <= MAX_CHUNKS ==> chunks == before + Pending(text, 0, provenance)
    ensures |before + Pending(text, 0, provenance)| > MAX_CHUNKS ==> |chunks| > MAX_CHUNKS
  {
    hide FindBoundary, WindowEnd, Pending, Strip;
    chunks := before;
    var start := 0;
    ghost var pending := Pending(text, 0, provenance);
    ghost var all := before + pending;
    while start < |text|
      invariant |chunks| <= MAX_CHUNKS
      invariant pending == Pending(text, start, provenance)
      invariant chunks + pending == all
      decreases |text| - start
    {
      var hardEnd := Min(|text|, start + CHUNK_MAX);
      var end := FindBoundary(text, start, hardEnd);
      WindowEndBounds(text, start);
      if end <= start { end := hardEnd; }
      var content := Strip(text[start..end]);
      PendingStep(text, start, end, content, provenance);
      pending := if end >= |text| then [] else Pending(text, end - OVERLAP, provenance);
      MoveFirst(chunks, Chunk(content, provenance), pending);
      if content != [] {
        chunks := chunks + [Chunk(content, provenance)];
        if |chunks| > MAX_CHUNKS { return; }
      }
      if end >= |text| { return; }
      start := if start + 1 > end - OVERLAP then start + 1 else end - OVERLAP;
    }
    NonePending(text, start, provenance);
  }

  method ChunkUnits(units: seq<Unit>) returns (r: Result<seq<Chunk>>)
    ensures r == Chunked(units)
  {
    var chunks: seq<Chunk> := [];
    for u := 0 to |units|
      invariant chunks == AllChunks(units[..u])
      invariant |chunks| <= MAX_CHUNKS
    {
      assert units[..u + 1][..u] == units[..u];
      chunks := ChunkText(Normalize(units[u].text), units[u].provenance, chunks);
      if |chunks| > MAX_CHUNKS {
        MoreUnitsMoreChunks(units, u + 1);
        return Err("knowledge_too_many_chunks");
      }
    }
    assert units[..|units|] == units;
    if chunks == [] { return Err("knowledge_no_extractable_text"); }
    return Ok(chunks);
  }

  /** The second normalisation changes nothing on a unit the parser produced: its windows rebuild the unit's text. */
  lemma ParsedUnitReconstructs(raw: string, provenance: nat)
    requires Normalize(raw) != []
    ensures var unit := Unit(Normalize(raw), provenance);
            Rebuild(Normalize(unit.text), Windows(Normalize(unit.text), 0)) == unit.text
  {
    NormalizeTwice(raw);
    WindowsReconstruct(Normalize(raw));
  }

  /** The content is a piece of the text of at most 1200 characters, neither empty nor with white space at its ends. */
  ghost predicate IsPiece(text: string, content: string) {
    && content != [] && |content| <= 1200 && !IsSpace(content[0]) && !IsSpace(content[|content| - 1])
    && exists a, b :: 0 <= a <= b <= |text| && content == text[a..b]
  }

  lemma PieceOfWindow(text: string, w: Window)
    requires w.start <= w.end <= |text| && w.end - w.start <= CHUNK_MAX && Strip(Slice(text, w)) != []
    ensures IsPiece(text, Strip(Slice(text, w)))
  {
    hide IsSpace, Strip;
    var from, to := StripIsMiddle(Slice(text, w));
    SubSlice(text, w.start, w.end, from, to);
    assert text[w.start + from..w.start + to] == Strip(Slice(text, w));
  }

  lemma {:induction false} ContentsArePieces(text: string, windows: seq<Window>, start: nat, k: nat)
    requires Chain(windows, start, |text|) && k < |Contents(text, windows)|
    ensures IsPiece(text, Contents(text, windows)[k])
    decreases |windows|
  {
    hide Strip, Slice, IsPiece;
    var here := Strip(Slice(text, windows[0]));
    if here != [] { PieceOfWindow(text, windows[0]); }
    if here == [] || k > 0 {
      assert |windows| > 1;
      ContentsArePieces(text, windows[1..], windows[0].end - OVERLAP, if here == [] then k else k - 1);
    }
  }

  /** Every chunk names the unit it comes from, and quotes it: its content is a piece of that unit's text. */
  lemma {:induction false} ChunksQuoteUnits(units: seq<Unit>, k: nat) returns (u: nat)
    requires k < |AllChunks(units)|
    ensures u < |units| && AllChunks(units)[k].provenance == units[u].provenance
    ensures IsPiece(Normalize(units[u].text), AllChunks(units)[k].content)
  {
    hide Normalize, Windows, IsPiece;
    var n := |units| - 1;
    var before := AllChunks(units[..n]);
    if k < |before| {
      u := ChunksQuoteUnits(units[..n], k);
    } else {
      u := n;
      var text := Normalize(units[n].text);
      assert text != [] by { if text == [] { NonePending(text, 0, units[n].provenance); } }
      WindowsChain(text, 0);
      ContentsArePieces(text, Windows(text, 0), 0, k - |before|);
    }
  }

  /** Where a window that is not the last is cut: after its last paragraph break past the half, else after its last line
      break there, else its last full stop, else its last space, and only without any of them after 1200 characters. */
  lemma CutsAtBest(text: string, start: nat)
    requires start + 1200 < |text|
    ensures var end := WindowEnd(text, start);
            var breaks := ["\n\n", "\n", ". ", " "];
            || (end == start + 1200 && forall k :: 0 <= k < 4 ==> Absent(text, start + 600, start + 1200, breaks[k]))
            || (exists k :: 0 <= k < 4 && CutAfter(text, start + 600, start + 1200, breaks[k], end)
                            && forall j :: 0 <= j < k ==> Absent(text, start + 600, start + 1200, breaks[j]))
  {
    hide BoundaryFrom, CutAfter, Absent;
    BoundaryIsBest(text, start + 600, start + 1200, SEPARATORS);
  }

  /** A document is refused without a chunk or with more than 512, and otherwise gives all of them. */
  lemma ChunkedExactly(units: seq<Unit>)
    ensures Chunked(units) == if AllChunks(units) == [] then Err("knowledge_no_extractable_text")
                              else if |AllChunks(units)| > 512 then Err("knowledge_too_many_chunks")
                              else Ok(AllChunks(units))
  {
  }
}
