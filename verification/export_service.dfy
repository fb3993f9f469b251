/**
 * The worker's text exports (`export_service.py`): DBML and Mermaid built by
 * appending lines in loops, joined with newlines, stripped and ended with one
 * newline. The lemmas at the end compare them with the server's exports.
 */
module ExportService {
  import opened Wrappers
  import opened Text
  import opened Schema
  import DbExporter

  /** `'\n'.join(lines).strip() + '\n'`: ends in exactly one newline. */
  function Finish(lines: seq<string>): (r: string)
    ensures |r| >= 1 && r[|r| - 1] == '\n'
    ensures |r| == 1 || !IsSpace(r[|r| - 2])
  {
    Trim(Join(lines, "\n")) + "\n"
  }

  /** `comment.replace("'", "")`: the quotes are dropped, not doubled. */
  function RemoveQuotes(s: string): (r: string)
    ensures '\'' !in r
    ensures '\'' !in s ==> r == s
  {
    KeepsQuoteless(s);
    ReplaceChar(s, '\'', "")
  }

  lemma {:induction false} KeepsQuoteless(s: string)
    ensures '\'' !in s ==> ReplaceChar(s, '\'', "") == s
  {
    if |s| > 0 {
      KeepsQuoteless(s[1..]);
      assert s == [s[0]] + s[1..];
    }
  }

  // ---------------------------------------------------------------- DBML

  /** The column's attributes: pk, not null, note; there is no default. */
  function PyColumnAttrs(c: Column): seq<string> {
    (if c.isPk then ["pk"] else [])
    + (if !c.nullable then ["not null"] else [])
    + (if Truthy(c.comment) then ["note: '" + RemoveQuotes(c.comment.value) + "'"] else [])
  }

  function PyDbmlColumnLine(c: Column): string {
    "  " + c.name + " " + c.dataType + DbExporter.Bracket(PyColumnAttrs(c))
  }

  function PyDbmlColumnLines(cols: seq<Column>): (r: seq<string>)
    ensures |r| == |cols|
  {
    if |cols| == 0 then [] else PyDbmlColumnLines(cols[..|cols| - 1]) + [PyDbmlColumnLine(cols[|cols| - 1])]
  }

  function PyTableHead(t: Table): string {
    "Table " + t.name + " {"
  }

  function PyDbmlTableBlock(t: Table): seq<string> {
    [PyTableHead(t)] + PyDbmlColumnLines(t.columns) + ["}", ""]
  }

  function PyDbmlTables(tables: seq<Table>): seq<string> {
    if |tables| == 0 then [] else PyDbmlTables(tables[..|tables| - 1]) + PyDbmlTableBlock(tables[|tables| - 1])
  }

  /** Every relation is written as a many-to-one `Ref`. */
  function PyRefLine(r: Relation): string {
    "Ref: " + r.sourceTable + "." + r.sourceColumn + " > " + r.targetTable + "." + r.targetColumn
  }

  function PyRefLines(rels: seq<Relation>): (r: seq<string>)
    ensures |r| == |rels|
  {
    if |rels| == 0 then [] else PyRefLines(rels[..|rels| - 1]) + [PyRefLine(rels[|rels| - 1])]
  }

  /** Every line `build_dbml` joins. */
  function PyDbmlLines(m: ExtractResult, rels: seq<Relation>): seq<string> {
    PyDbmlTables(m.tables) + PyRefLines(rels)
  }

  /** `build_dbml`. */
  method BuildDbmlPy(metadata: ExtractResult, relations: seq<Relation>) returns (text: string)
    ensures text == Finish(PyDbmlLines(metadata, relations))
  {
    var lines: seq<string> := [];
    var i := 0;
    while i < |metadata.tables|
      invariant 0 <= i <= |metadata.tables|
      invariant lines == PyDbmlTables(metadata.tables[..i])
    {
      var table := metadata.tables[i];
      ghost var before := lines;
      lines := lines + [PyTableHead(table)];
      ghost var headed := lines;
      var j := 0;
      while j < |table.columns|
        invariant 0 <= j <= |table.columns|
        invariant lines == headed + PyDbmlColumnLines(table.columns[..j])
      {
        var line := PyDbmlColumn(table.columns[j]);
        PushPyDbmlColumn(headed, table.columns, j, lines, line);
        lines := lines + [line];
        j := j + 1;
      }
      PushPyDbmlTable(before, metadata.tables, i, headed, lines);
      lines := lines + ["}"];
      lines := lines + [""];
      i := i + 1;
    }
    assert metadata.tables[..|metadata.tables|] == metadata.tables;
    ghost var tablesDone := lines;
    var k := 0;
    while k < |relations|
      invariant 0 <= k <= |relations|
      invariant lines == tablesDone + PyRefLines(relations[..k])
    {
      var rel := relations[k];
      var line := "Ref: " + rel.sourceTable + "." + rel.sourceColumn + " > " + rel.targetTable + "." + rel.targetColumn;
      PushPyRef(tablesDone, relations, k, lines, line);
      lines := lines + [line];
      k := k + 1;
    }
    assert relations[..|relations|] == relations;
    text := Trim(Join(lines, "\n")) + "\n";
  }

  /** One column line of `build_dbml`: the attributes collected in order, then bracketed. */
  method PyDbmlColumn(col: Column) returns (line: string)
    ensures line == PyDbmlColumnLine(col)
  {
    var attrs: seq<string> := [];
    if col.isPk {
      attrs := attrs + ["pk"];
    }
    if !col.nullable {
      attrs := attrs + ["not null"];
    }
    if Truthy(col.comment) {
      attrs := attrs + ["note: '" + RemoveQuotes(col.comment.value) + "'"];
    }
    assert attrs == PyColumnAttrs(col);
    var attrStr := if |attrs| > 0 then " [" + Join(attrs, ", ") + "]" else "";
    line := "  " + col.name + " " + col.dataType + attrStr;
  }

  lemma {:induction false} PushPyDbmlColumn(headed: seq<string>, cols: seq<Column>, j: int, lines: seq<string>, line: string)
    requires 0 <= j < |cols| && lines == headed + PyDbmlColumnLines(cols[..j]) && line == PyDbmlColumnLine(cols[j])
    ensures lines + [line] == headed + PyDbmlColumnLines(cols[..j + 1])
  {
    assert cols[..j + 1][..j] == cols[..j];
    DbExporter.AppendAssoc(headed, PyDbmlColumnLines(cols[..j]), [line]);
  }

  lemma {:induction false} PushPyDbmlTable(before: seq<string>, tables: seq<Table>, i: int, headed: seq<string>, lines: seq<string>)
    requires 0 <= i < |tables| && before == PyDbmlTables(tables[..i])
    requires headed == before + [PyTableHead(tables[i])]
    requires lines == headed + PyDbmlColumnLines(tables[i].columns[..|tables[i].columns|])
    ensures lines + ["}"] + [""] == PyDbmlTables(tables[..i + 1])
  {
    var t := tables[i];
    assert t.columns[..|t.columns|] == t.columns;
    assert tables[..i + 1][..i] == tables[..i];
    assert PyDbmlTables(tables[..i + 1]) == PyDbmlTables(tables[..i]) + PyDbmlTableBlock(t);
    DbExporter.BlockAppend(before, PyTableHead(t), PyDbmlColumnLines(t.columns), ["}", ""]);
    assert ["}"] + [""] == ["}", ""];
    DbExporter.AppendAssoc(lines, ["}"], [""]);
  }

  lemma {:induction false} PushPyRef(headed: seq<string>, rels: seq<Relation>, k: int, lines: seq<string>, line: string)
    requires 0 <= k < |rels| && lines == headed + PyRefLines(rels[..k]) && line == PyRefLine(rels[k])
    ensures lines + [line] == headed + PyRefLines(rels[..k + 1])
  {
    assert rels[..k + 1][..k] == rels[..k];
    DbExporter.AppendAssoc(headed, PyRefLines(rels[..k]), [line]);
  }

  // ---------------------------------------------------------------- Mermaid

  /** `_mermaid_cardinality`: anything that is not 1:1, 1:N or N:1 is drawn as N:M. */
  function MermaidCardPy(card: string): string {
    if card == "1:1" then "||--||"
    else if card == "1:N" then "||--o{"
    else if card == "N:1" then "}o--||"
    else "}o--o{"
  }

  function PyMermaidColumnLine(c: Column): string {
    "    " + c.dataType + " " + c.name + (if c.nullable then "" else " not null")
  }

  function PyMermaidColumnLines(cols: seq<Column>): (r: seq<string>)
    ensures |r| == |cols|
  {
    if |cols| == 0 then [] else PyMermaidColumnLines(cols[..|cols| - 1]) + [PyMermaidColumnLine(cols[|cols| - 1])]
  }

  function PyMermaidTableBlock(t: Table): seq<string> {
    ["  " + t.name + " {"] + PyMermaidColumnLines(t.columns) + ["  }"]
  }

  function PyMermaidTables(tables: seq<Table>): seq<string> {
    if |tables| == 0 then [] else PyMermaidTables(tables[..|tables| - 1]) + PyMermaidTableBlock(tables[|tables| - 1])
  }

  /** The label is the bare confidence. */
  function PyMermaidRelLine(r: Relation): string {
    "  " + r.sourceTable + " " + MermaidCardPy(CardinalityText(r.cardinality)) + " " + r.targetTable
    + " : " + ConfidenceText(r.confidence)
  }

  function PyMermaidRelLines(rels: seq<Relation>): (r: seq<string>)
    ensures |r| == |rels|
  {
    if |rels| == 0 then [] else PyMermaidRelLines(rels[..|rels| - 1]) + [PyMermaidRelLine(rels[|rels| - 1])]
  }

  /** Every line `build_mermaid` joins. */
  function PyMermaidLines(m: ExtractResult, rels: seq<Relation>): seq<string> {
    ["erDiagram"] + PyMermaidTables(m.tables) + PyMermaidRelLines(rels)
  }

  /** `build_mermaid`. */
  method BuildMermaidPy(metadata: ExtractResult, relations: seq<Relation>) returns (text: string)
    ensures text == Finish(PyMermaidLines(metadata, relations))
  {
    var lines := ["erDiagram"];
    var i := 0;
    while i < |metadata.tables|
      invariant 0 <= i <= |metadata.tables|
      invariant lines == ["erDiagram"] + PyMermaidTables(metadata.tables[..i])
    {
      var table := metadata.tables[i];
      ghost var before := lines;
      lines := lines + ["  " + table.name + " {"];
      ghost var headed := lines;
      var j := 0;
      while j < |table.columns|
        invariant 0 <= j <= |table.columns|
        invariant lines == headed + PyMermaidColumnLines(table.columns[..j])
      {
        var col := table.columns[j];
        var nullable := if col.nullable then "" else " not null";
        var line := "    " + col.dataType + " " + col.name + nullable;
        PushPyMermaidColumn(headed, table.columns, j, lines, line);
        lines := lines + [line];
        j := j + 1;
      }
      PushPyMermaidTable(before, metadata.tables, i, headed, lines);
      lines := lines + ["  }"];
      i := i + 1;
    }
    assert metadata.tables[..|metadata.tables|] == metadata.tables;
    ghost var tablesDone := lines;
    var k := 0;
    while k < |relations|
      invariant 0 <= k <= |relations|
      invariant lines == tablesDone + PyMermaidRelLines(relations[..k])
    {
      var rel := relations[k];
      var card := MermaidCardPy(CardinalityText(rel.cardinality));
      var line := "  " + rel.sourceTable + " " + card + " " + rel.targetTable + " : " + ConfidenceText(rel.confidence);
      PushPyMermaidRel(tablesDone, relations, k, lines, line);
      lines := lines + [line];
      k := k + 1;
    }
    assert relations[..|relations|] == relations;
    text := Trim(Join(lines, "\n")) + "\n";
  }

  lemma {:induction false} PushPyMermaidColumn(headed: seq<string>, cols: seq<Column>, j: int, lines: seq<string>, line: string)
    requires 0 <= j < |cols| && lines == headed + PyMermaidColumnLines(cols[..j]) && line == PyMermaidColumnLine(cols[j])
    ensures lines + [line] == headed + PyMermaidColumnLines(cols[..j + 1])
  {
    assert cols[..j + 1][..j] == cols[..j];
    DbExporter.AppendAssoc(headed, PyMermaidColumnLines(cols[..j]), [line]);
  }

  lemma {:induction false} PushPyMermaidTable(before: seq<string>, tables: seq<Table>, i: int, headed: seq<string>, lines: seq<string>)
    requires 0 <= i < |tables| && before == ["erDiagram"] + PyMermaidTables(tables[..i])
    requires headed == before + ["  " + tables[i].name + " {"]
    requires lines == headed + PyMermaidColumnLines(tables[i].columns[..|tables[i].columns|])
    ensures lines + ["  }"] == ["erDiagram"] + PyMermaidTables(tables[..i + 1])
  {
    var t := tables[i];
    assert t.columns[..|t.columns|] == t.columns;
    assert tables[..i + 1][..i] == tables[..i];
    assert PyMermaidTables(tables[..i + 1]) == PyMermaidTables(tables[..i]) + PyMermaidTableBlock(t);
    DbExporter.AppendAssoc(["erDiagram"], PyMermaidTables(tables[..i]), PyMermaidTableBlock(t));
    DbExporter.BlockAppend(before, "  " + t.name + " {", PyMermaidColumnLines(t.columns), ["  }"]);
  }

  lemma {:induction false} PushPyMermaidRel(headed: seq<string>, rels: seq<Relation>, k: int, lines: seq<string>, line: string)
    requires 0 <= k < |rels| && lines == headed + PyMermaidRelLines(rels[..k]) && line == PyMermaidRelLine(rels[k])
    ensures lines + [line] == headed + PyMermaidRelLines(rels[..k + 1])
  {
    assert rels[..k + 1][..k] == rels[..k];
    DbExporter.AppendAssoc(headed, PyMermaidRelLines(rels[..k]), [line]);
  }

  // ---------------------------------------------------------------- worker against server

  /**
   * On the four cardinalities the worker draws the same connectors as the
   * server; on any other text the two defaults differ.
   */
  lemma {:induction false} MermaidCardAgree(c: Cardinality, other: string)
    requires other != "1:1" && other != "1:N" && other != "N:1" && other != "N:M"
    ensures MermaidCardPy(CardinalityText(c)) == DbExporter.MermaidCard(CardinalityText(c))
    ensures MermaidCardPy(other) == "}o--o{" && DbExporter.MermaidCard(other) == "||--o{"
  {
  }

  /** A many-to-one or one-to-many relation gets the same `Ref` line from both exporters. */
  lemma {:induction false} RefLineAgree(r: Relation)
    requires r.cardinality != OneToOne
    ensures PyRefLine(r) == DbExporter.RefLine(r)
  {
  }

  /**
   * Without a default and without quotes in its comment, a column gets the
   * same DBML line from both exporters.
   */
  lemma {:induction false} DbmlColumnAgree(c: Column)
    requires c.defaultValue.None?
    requires c.comment.Some? ==> '\'' !in c.comment.value
    ensures PyDbmlColumnLine(c) == DbExporter.DbmlColumnLine(c)
  {
    if Truthy(c.comment) {
      DoubleQuoteless(c.comment.value);
      assert RemoveQuotes(c.comment.value) == c.comment.value;
    }
    assert PyColumnAttrs(c) == DbExporter.ColumnAttrs(c);
  }

  lemma {:induction false} DoubleQuoteless(s: string)
    requires '\'' !in s
    ensures DbExporter.DoubleQuotes(s) == s
  {
    if |s| > 0 {
      DoubleQuoteless(s[1..]);
      assert s == [s[0]] + s[1..];
    }
  }

  /** A quote in a comment: the server doubles it, the worker drops it. */
  lemma {:induction false} QuoteExample()
    ensures DbExporter.DoubleQuotes("it's") == "it''s"
    ensures RemoveQuotes("it's") == "its"
  {
    QuoteReplaced("");
    QuoteReplaced("''");
  }

  /** Replacing the quote of `it's` by `rep`. */
  lemma {:induction false} QuoteReplaced(rep: string)
    ensures ReplaceChar("it's", '\'', rep) == "it" + rep + "s"
  {
    var s := "it's";
    assert s[1..] == "t's" && s[1..][1..] == "'s" && s[1..][1..][1..] == "s" && "s"[1..] == "";
    assert ReplaceChar("s", '\'', rep) == "s";
    assert ReplaceChar("'s", '\'', rep) == rep + "s";
    assert ReplaceChar("t's", '\'', rep) == "t" + rep + "s";
  }
}
