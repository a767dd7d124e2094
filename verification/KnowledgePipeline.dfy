/** From an opened workbook to chunks: the parser's units go to the chunker. */
module KnowledgePipeline {
  import opened Outcomes
  import opened TextNormalizer
  import opened Chunker
  import opened SheetPacker

  function AsUnits(units: seq<SheetUnit>): (r: seq<Unit>)
    ensures |r| == |units|
    ensures forall k :: 0 <= k < |units| ==> r[k] == Unit(units[k].text, k)
  {
    seq(|units|, k requires 0 <= k < |units| => Unit(units[k].text, k))
  }

  lemma {:induction false} LastUnitHasText(units: seq<SheetUnit>)
    requires TextTotal(units) > 0
    ensures exists k :: 0 <= k < |units| && units[k].text != []
  {
    var n := |units| - 1;
    if units[n].text == [] {
      LastUnitHasText(units[..n]);
      var k :| 0 <= k < n && units[..n][k].text != [];
      assert units[k].text != [];
    }
  }

  /** A normalised text that is not empty gives at least one chunk. */
  lemma TextGivesChunk(unit: Unit)
    requires IsNormal(unit.text) && unit.text != []
    ensures UnitChunks(unit) != []
  {
    hide Windows, Contents;
    NormalIsFixed(unit.text);
    var k, a, b := OnlySpaceIsLost(unit.text, 0);
  }

  lemma {:induction false} SomeChunk(units: seq<Unit>, k: nat)
    requires k < |units| && UnitChunks(units[k]) != []
    ensures AllChunks(units) != []
  {
    hide UnitChunks;
    if k < |units| - 1 { SomeChunk(units[..|units| - 1], k); }
  }

  lemma {:induction false} UnitsAreNormal(groups: seq<seq<Row>>, title: string)
    requires forall g :: 0 <= g < |groups| ==> groups[g] != []
    ensures forall k :: 0 <= k < |groups| ==> IsNormal(UnitsOf(groups, title)[k].text)
  {
    hide IsNormal, Normalize;
    if groups != [] {
      UnitsAreNormal(groups[..|groups| - 1], title);
      NormalizeIsNormal(Join(Lines(groups[|groups| - 1])));
    }
  }

  lemma {:induction false} AllUnitsAreNormal(sheets: seq<Sheet>)
    ensures forall k :: 0 <= k < |AllUnits(sheets)| ==> IsNormal(AllUnits(sheets)[k].text)
  {
    hide IsNormal, SheetGroups, UnitsOf;
    if sheets != [] {
      AllUnitsAreNormal(sheets[..|sheets| - 1]);
      UnitsAreNormal(SheetGroups(sheets[|sheets| - 1]), sheets[|sheets| - 1].title);
    }
  }

  /** Units are stored in the form the chunker normalises to, so its windows rebuild each of them exactly. */
  lemma WorkbookReconstructs(sheets: seq<Sheet>, k: nat)
    requires k < |AllUnits(sheets)| && AllUnits(sheets)[k].text != []
    ensures var text := AllUnits(sheets)[k].text;
            Normalize(text) == text && Rebuild(text, Windows(text, 0)) == text
  {
    hide Windows, Rebuild, Normalize, IsNormal;
    AllUnitsAreNormal(sheets);
    NormalIsFixed(AllUnits(sheets)[k].text);
    WindowsReconstruct(AllUnits(sheets)[k].text);
  }

  /** A workbook the parser accepts is never refused by the chunker for having no text. */
  lemma ParsedWorkbookHasChunks(sheets: seq<Sheet>)
    requires Parsed(sheets).Ok?
    ensures Chunked(AsUnits(Parsed(sheets).value)) != Err("knowledge_no_extractable_text")
  {
    hide IsNormal, UnitChunks, AllUnits;
    var units := AllUnits(sheets);
    LastUnitHasText(units);
    var k :| 0 <= k < |units| && units[k].text != [];
    AllUnitsAreNormal(sheets);
    TextGivesChunk(AsUnits(units)[k]);
    SomeChunk(AsUnits(units), k);
    assert "knowledge_too_many_chunks"[10] != "knowledge_no_extractable_text"[10];
  }
}
