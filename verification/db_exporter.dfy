/**
 * The server's text exports (`dbExporter.ts`): the extracted schema and the
 * inferred relations as DBML and as a Mermaid `erDiagram`. Both builders push
 * lines onto a list table by table and column by column and join them with
 * newlines; each is proved against a function that states the whole list.
 */
module DbExporter {
  import opened Wrappers
  import opened Text
  import opened Schema

  // ---------------------------------------------------------------- quoting

  /** `s.replace(/'/g, "''")`: every single quote doubled. */
  function DoubleQuotes(s: string): string {
    ReplaceChar(s, '\'', "''")
  }

  /** How a DBML reader takes a quoted text back: each `''` is one `'`. */
  function UndoubleQuotes(s: string): string
    decreases |s|
  {
    if |s| == 0 then ""
    else if |s| >= 2 && s[0] == '\'' && s[1] == '\'' then "'" + UndoubleQuotes(s[2..])
    else [s[0]] + UndoubleQuotes(s[1..])
  }

  /** Doubling the quotes loses nothing: the note text reads back as the comment. */
  lemma {:induction false} UndoubleDouble(s: string)
    ensures UndoubleQuotes(DoubleQuotes(s)) == s
  {
    if |s| > 0 {
      var rest := DoubleQuotes(s[1..]);
      UndoubleDouble(s[1..]);
      if s[0] == '\'' {
        assert DoubleQuotes(s) == "''" + rest;
        assert ("''" + rest)[2..] == rest;
      } else {
        assert DoubleQuotes(s) == [s[0]] + rest;
        assert ([s[0]] + rest)[1..] == rest;
      }
      assert s == [s[0]] + s[1..];
    }
  }

  // ---------------------------------------------------------------- DBML

  function DbmlHeader(m: ExtractResult): seq<string> {
    ["// DBML generated from " + m.schemaName, "// Extracted at: " + m.extractedAt, ""]
  }

  function NoteStr(comment: Option<string>): string {
    if Truthy(comment) then " [note: '" + DoubleQuotes(comment.value) + "']" else ""
  }

  function TableHead(t: Table): string {
    "Table " + t.name + NoteStr(t.comment) + " {"
  }

  /** The column's attributes: pk, not null, default, note, each only when it applies. */
  function ColumnAttrs(c: Column): seq<string> {
    (if c.isPk then ["pk"] else [])
    + (if !c.nullable then ["not null"] else [])
    + (if c.defaultValue.Some? then ["default: `" + c.defaultValue.value + "`"] else [])
    + (if Truthy(c.comment) then ["note: '" + DoubleQuotes(c.comment.value) + "'"] else [])
  }

  function Bracket(attrs: seq<string>): string {
    if |attrs| > 0 then " [" + Join(attrs, ", ") + "]" else ""
  }

  function DbmlColumnLine(c: Column): string {
    "  " + c.name + " " + c.dataType + Bracket(ColumnAttrs(c))
  }

  function DbmlColumnLines(cols: seq<Column>): (r: seq<string>)
    ensures |r| == |cols|
  {
    if |cols| == 0 then [] else DbmlColumnLines(cols[..|cols| - 1]) + [DbmlColumnLine(cols[|cols| - 1])]
  }

  function DbmlTableBlock(t: Table): seq<string> {
    [TableHead(t)] + DbmlColumnLines(t.columns) + ["}", ""]
  }

  function DbmlTables(tables: seq<Table>): seq<string> {
    if |tables| == 0 then [] else DbmlTables(tables[..|tables| - 1]) + DbmlTableBlock(tables[|tables| - 1])
  }

  /** Only declared and high-confidence relations become `Ref` lines. */
  predicate IsRef(r: Relation) {
    r.confidence == FK || r.confidence == HIGH
  }

  function RefLine(r: Relation): string {
    var arrow := if r.cardinality == OneToOne then "-" else ">";
    "Ref: " + r.sourceTable + "." + r.sourceColumn + " " + arrow + " " + r.targetTable + "." + r.targetColumn
  }

  /** `relations.filter(IsRef).map(RefLine)`. */
  function RefLines(rels: seq<Relation>): seq<string> {
    if |rels| == 0 then []
    else
      var last := rels[|rels| - 1];
      RefLines(rels[..|rels| - 1]) + (if IsRef(last) then [RefLine(last)] else [])
  }

  /** Every line `buildDbml` joins. */
  function DbmlLines(m: ExtractResult, rels: seq<Relation>): seq<string> {
    var refs := RefLines(rels);
    DbmlHeader(m) + DbmlTables(m.tables) + (if |refs| > 0 then ["// References"] + refs else [])
  }

  /** `buildDbml`. */
  method BuildDbml(metadata: ExtractResult, relations: seq<Relation>) returns (text: string)
    ensures text == Join(DbmlLines(metadata, relations), "\n")
  {
    var lines := DbmlHeader(metadata);
    var i := 0;
    while i < |metadata.tables|
      invariant 0 <= i <= |metadata.tables|
      invariant lines == DbmlHeader(metadata) + DbmlTables(metadata.tables[..i])
    {
      var table := metadata.tables[i];
      ghost var before := lines;
      lines := lines + [TableHead(table)];
      ghost var headed := lines;
      var j := 0;
      while j < |table.columns|
        invariant 0 <= j <= |table.columns|
        invariant lines == headed + DbmlColumnLines(table.columns[..j])
      {
        var line := DbmlColumn(table.columns[j]);
        PushDbmlColumn(headed, table.columns, j, lines, line);
        lines := lines + [line];
        j := j + 1;
      }
      PushDbmlTable(before, metadata, i, headed, lines);
      lines := lines + ["}"];
      lines := lines + [""];
      i := i + 1;
    }
    assert metadata.tables[..|metadata.tables|] == metadata.tables;
    var refLines := RefLines(relations);
    if |refLines| > 0 {
      AppendAssoc(lines, ["// References"], refLines);
      lines := lines + ["// References"];
      lines := lines + refLines;
    } else {
      assert lines + [] == lines;
    }
    text := Join(lines, "\n");
  }

  /** One column line of `buildDbml`: the attribute parts collected in order, then bracketed. */
  method DbmlColumn(col: Column) returns (line: string)
    ensures line == DbmlColumnLine(col)
  {
    var parts: seq<string> := [];
    if col.isPk {
      parts := parts + ["pk"];
    }
    if !col.nullable {
      parts := parts + ["not null"];
    }
    if col.defaultValue.Some? {
      parts := parts + ["default: `" + col.defaultValue.value + "`"];
    }
    if Truthy(col.comment) {
      parts := parts + ["note: '" + DoubleQuotes(col.comment.value) + "'"];
    }
    assert parts == ColumnAttrs(col);
    var constraintStr := if |parts| > 0 then " [" + Join(parts, ", ") + "]" else "";
    line := "  " + col.name + " " + col.dataType + constraintStr;
  }

  lemma {:induction false} AppendAssoc(a: seq<string>, b: seq<string>, c: seq<string>)
    ensures a + b + c == a + (b + c)
  {
  }

  /** Pushing the line of column `j` extends the column lines by one. */
  lemma {:induction false} PushDbmlColumn(headed: seq<string>, cols: seq<Column>, j: int, lines: seq<string>, line: string)
    requires 0 <= j < |cols| && lines == headed + DbmlColumnLines(cols[..j]) && line == DbmlColumnLine(cols[j])
    ensures lines + [line] == headed + DbmlColumnLines(cols[..j + 1])
  {
    assert cols[..j + 1][..j] == cols[..j];
    AppendAssoc(headed, DbmlColumnLines(cols[..j]), [line]);
  }

  /** Closing the block of table `i` extends the table lines by that block. */
  lemma {:induction false} PushDbmlTable(before: seq<string>, m: ExtractResult, i: int, headed: seq<string>, lines: seq<string>)
    requires 0 <= i < |m.tables| && before == DbmlHeader(m) + DbmlTables(m.tables[..i])
    requires headed == before + [TableHead(m.tables[i])]
    requires lines == headed + DbmlColumnLines(m.tables[i].columns[..|m.tables[i].columns|])
    ensures lines + ["}"] + [""] == DbmlHeader(m) + DbmlTables(m.tables[..i + 1])
  {
    var t := m.tables[i];
    assert t.columns[..|t.columns|] == t.columns;
    assert m.tables[..i + 1][..i] == m.tables[..i];
    assert DbmlTables(m.tables[..i + 1]) == DbmlTables(m.tables[..i]) + DbmlTableBlock(t);
    AppendAssoc(DbmlHeader(m), DbmlTables(m.tables[..i]), DbmlTableBlock(t));
    BlockAppend(before, TableHead(t), DbmlColumnLines(t.columns), ["}", ""]);
    assert ["}"] + [""] == ["}", ""];
    AppendAssoc(lines, ["}"], [""]);
  }

  /** Appending a block `[x] + c + tail` one piece at a time. */
  lemma {:induction false} BlockAppend(a: seq<string>, x: string, c: seq<string>, tail: seq<string>)
    ensures a + ([x] + c + tail) == a + [x] + c + tail
  {
  }

  /** The text opens with the two comment lines and then a blank line. */
  lemma DbmlStartsWithHeader(m: ExtractResult, rels: seq<Relation>)
    ensures var body := DbmlTables(m.tables) + (if |RefLines(rels)| > 0 then ["// References"] + RefLines(rels) else []);
      && var text := Join(DbmlLines(m, rels), "\n");
      && var head := "// DBML generated from " + m.schemaName + "\n" + "// Extracted at: " + m.extractedAt + "\n";
      && (|body| == 0 ==> text == head)
      && (|body| > 0 ==> text == head + "\n" + Join(body, "\n"))
  {
    var refs := RefLines(rels);
    var body := DbmlTables(m.tables) + (if |refs| > 0 then ["// References"] + refs else []);
    var h := DbmlHeader(m);
    assert DbmlLines(m, rels) == h + body;
    HeaderJoin(m);
    JoinAfterHead(h, body);
  }

  /** Joining a non-empty head and then a body: the body, when present, follows one separator. */
  lemma {:induction false} JoinAfterHead(h: seq<string>, body: seq<string>)
    requires |h| > 0
    ensures |body| == 0 ==> Join(h + body, "\n") == Join(h, "\n")
    ensures |body| > 0 ==> Join(h + body, "\n") == Join(h, "\n") + "\n" + Join(body, "\n")
  {
    if |body| > 0 {
      JoinAppend(h, body, "\n");
    } else {
      assert h + body == h;
    }
  }

  lemma {:induction false} HeaderJoin(m: ExtractResult)
    ensures Join(DbmlHeader(m), "\n") == "// DBML generated from " + m.schemaName + "\n" + "// Extracted at: " + m.extractedAt + "\n"
  {
    var h := DbmlHeader(m);
    assert h[..2][..1] == [h[0]];
    assert Join(h[..2], "\n") == h[0] + "\n" + h[1];
  }

  /** Every line of the table blocks is empty or does not start with `/`. */
  lemma {:induction false} TableLinesNoSlash(tables: seq<Table>)
    ensures forall s :: s in DbmlTables(tables) ==> s == "" || s[0] != '/'
  {
    if |tables| > 0 {
      TableLinesNoSlash(tables[..|tables| - 1]);
      var t := tables[|tables| - 1];
      forall s | s in DbmlTableBlock(t) ensures s == "" || s[0] != '/' {
        ColumnLinesIndent(t.columns);
      }
    }
  }

  lemma {:induction false} ColumnLinesIndent(cols: seq<Column>)
    ensures forall s :: s in DbmlColumnLines(cols) ==> |s| > 0 && s[0] == ' '
  {
    if |cols| > 0 {
      ColumnLinesIndent(cols[..|cols| - 1]);
    }
  }

  /** The `Ref` lines are exactly those of the declared and high-confidence relations. */
  lemma {:induction false} RefLinesSpec(rels: seq<Relation>)
    ensures |RefLines(rels)| <= |rels|
    ensures forall s :: s in RefLines(rels) <==> exists r :: r in rels && IsRef(r) && s == RefLine(r)
  {
    if |rels| > 0 {
      var init, last := rels[..|rels| - 1], rels[|rels| - 1];
      RefLinesSpec(init);
      assert rels == init + [last];
      forall s ensures s in RefLines(rels) <==> exists r :: r in rels && IsRef(r) && s == RefLine(r) {
        if s in RefLines(rels) && s !in RefLines(init) {
          assert IsRef(last) && s == RefLine(last);
        }
        if exists r :: r in rels && IsRef(r) && s == RefLine(r) {
          var r :| r in rels && IsRef(r) && s == RefLine(r);
          if r != last {
            assert r in init;
          }
        }
      }
    }
  }

  /** A `// References` line appears iff some relation is declared or of high confidence. */
  lemma {:induction false} ReferencesIff(m: ExtractResult, rels: seq<Relation>)
    ensures "// References" in DbmlLines(m, rels) <==> exists i :: 0 <= i < |rels| && IsRef(rels[i])
  {
    var marker := "// References";
    var h := DbmlHeader(m);
    assert marker !in h by {
      assert h[0][3] == 'D' && h[1][3] == 'E' && marker[3] == 'R';
    }
    assert marker !in DbmlTables(m.tables) by {
      TableLinesNoSlash(m.tables);
    }
    RefLinesNoMarker(rels);
    MarkerIffRefs(h, DbmlTables(m.tables), RefLines(rels), marker);
    RefLinesEmptyIff(rels);
  }

  /** The marker line is in the text iff the reference block is there. */
  lemma MarkerIffRefs(h: seq<string>, body: seq<string>, refs: seq<string>, marker: string)
    requires marker !in h && marker !in body && marker !in refs
    ensures marker in h + body + (if |refs| > 0 then [marker] + refs else []) <==> |refs| > 0
  {
    if |refs| > 0 {
      assert (h + body + ([marker] + refs))[|h| + |body|] == marker;
    }
  }

  /** No `Ref` line is the marker line. */
  lemma {:induction false} RefLinesNoMarker(rels: seq<Relation>)
    ensures "// References" !in RefLines(rels)
  {
    if |rels| > 0 {
      var last := rels[|rels| - 1];
      RefLinesNoMarker(rels[..|rels| - 1]);
      assert RefLine(last)[0] == 'R';
    }
  }

  /** There are no `Ref` lines iff no relation is declared or of high confidence. */
  lemma {:induction false} RefLinesEmptyIff(rels: seq<Relation>)
    ensures |RefLines(rels)| == 0 <==> forall i :: 0 <= i < |rels| ==> !IsRef(rels[i])
  {
    if |rels| > 0 {
      var init := rels[..|rels| - 1];
      RefLinesEmptyIff(init);
      assert forall i :: 0 <= i < |init| ==> init[i] == rels[i];
    }
  }

  /** The attribute bracket is left out exactly when no attribute applies. */
  lemma {:induction false} BracketIff(c: Column)
    ensures DbmlColumnLine(c) == "  " + c.name + " " + c.dataType
        <==> !c.isPk && c.nullable && c.defaultValue.None? && !Truthy(c.comment)
  {
    var line := "  " + c.name + " " + c.dataType;
    if |ColumnAttrs(c)| > 0 {
      assert |DbmlColumnLine(c)| > |line|;
    }
  }

  /** The attributes keep the order pk, not null, default, note. */
  lemma {:induction false} ColumnAttrsOrder(c: Column)
    ensures var a := ColumnAttrs(c);
      && |a| == (if c.isPk then 1 else 0) + (if !c.nullable then 1 else 0)
                + (if c.defaultValue.Some? then 1 else 0) + (if Truthy(c.comment) then 1 else 0)
      && (c.isPk ==> a[0] == "pk")
      && (!c.nullable ==> a[if c.isPk then 1 else 0] == "not null")
      && (Truthy(c.comment) ==> a[|a| - 1] == "note: '" + DoubleQuotes(c.comment.value) + "'")
  {
  }

  // ---------------------------------------------------------------- Mermaid

  /** The characters Mermaid accepts in a type: `[A-Za-z0-9_]`. */
  predicate WordChar(c: char) {
    'a' <= c <= 'z' || 'A' <= c <= 'Z' || '0' <= c <= '9' || c == '_'
  }

  /**
   * `.replace(/[^a-zA-Z0-9_]/g, '_')`. The pattern has no `u` flag, so it
   * replaces UTF-16 code units: a character outside the Basic Multilingual
   * Plane is two units and becomes `__`.
   */
  function Sanitize(s: string): (r: string)
    ensures |r| == Utf16Length(s)
    ensures forall j :: 0 <= j < |r| ==> WordChar(r[j])
    ensures (forall i :: 0 <= i < |s| ==> s[i] as int <= 0xFFFF) ==>
      forall i :: 0 <= i < |s| ==> r[i] == if WordChar(s[i]) then s[i] else '_'
  {
    if |s| == 0 then []
    else
      var init := s[..|s| - 1];
      var rest := Sanitize(init);
      assert (forall i :: 0 <= i < |s| ==> s[i] as int <= 0xFFFF) ==>
        forall i :: 0 <= i < |init| ==> init[i] as int <= 0xFFFF;
      rest + SanitizeUnits(s[|s| - 1])
  }

  /** The replacement of one character: itself, or one `_` per UTF-16 unit. */
  function SanitizeUnits(c: char): (r: string)
    ensures |r| == if c as int > 0xFFFF then 2 else 1
    ensures WordChar(c) ==> r == [c]
    ensures !WordChar(c) ==> forall j :: 0 <= j < |r| ==> r[j] == '_'
  {
    if WordChar(c) then [c] else if c as int > 0xFFFF then "__" else "_"
  }

  /** An emoji between two letters becomes two underscores. */
  lemma SanitizeAstralExample()
    ensures Sanitize("a\U{1F600}b") == "a__b"
  {
    var s := "a\U{1F600}b";
    assert s[..2][..1] == "a" && s[..2] == s[..|s| - 1];
    assert Sanitize(s[..1]) == "a";
    assert Sanitize(s[..2]) == "a__";
  }

  /** Only underscores come out of a text with no letter or digit. */
  lemma {:induction false} SanitizeUnderscores(s: string)
    requires forall i :: 0 <= i < |s| ==> !WordChar(s[i]) || s[i] == '_'
    ensures forall j :: 0 <= j < |Sanitize(s)| ==> Sanitize(s)[j] == '_'
  {
    if |s| > 0 {
      SanitizeUnderscores(s[..|s| - 1]);
    }
  }

  /** The column type as Mermaid shows it: sanitised, without edge underscores, or `unknown`. */
  function SafeType(dataType: string): (r: string)
    ensures r != ""
    ensures forall i :: 0 <= i < |r| ==> WordChar(r[i])
    ensures r[0] != '_' && r[|r| - 1] != '_'
  {
    var s := RStrip(LStrip(Sanitize(dataType), '_'), '_');
    if s == "" then "unknown" else s
  }

  /** A type that is already a clean word is shown unchanged. */
  lemma {:induction false} SafeTypeKeeps(dataType: string)
    requires dataType != "" && dataType[0] != '_' && dataType[|dataType| - 1] != '_'
    requires forall i :: 0 <= i < |dataType| ==> WordChar(dataType[i])
    ensures SafeType(dataType) == dataType
  {
    assert forall i :: 0 <= i < |dataType| ==> dataType[i] as int <= 0xFFFF;
    assert Sanitize(dataType) == dataType;
  }

  /** A type with no letter or digit is shown as `unknown`. */
  lemma {:induction false} SafeTypeUnknown(dataType: string)
    requires forall i :: 0 <= i < |dataType| ==> !WordChar(dataType[i]) || dataType[i] == '_'
    ensures SafeType(dataType) == "unknown"
  {
    var s := Sanitize(dataType);
    SanitizeUnderscores(dataType);
    assert LStrip(s, '_') == "";
  }

  /** `toMermaidCard`, on the wire text of a cardinality. */
  function MermaidCard(card: string): string {
    if card == "1:1" then "||--||"
    else if card == "1:N" then "||--o{"
    else if card == "N:1" then "}o--||"
    else if card == "N:M" then "}o--o{"
    else "||--o{"
  }

  /** Distinct cardinalities get distinct Mermaid connectors; anything else is drawn as 1:N. */
  lemma {:induction false} MermaidCardSpec(a: Cardinality, b: Cardinality, other: string)
    requires other != "1:1" && other != "1:N" && other != "N:1" && other != "N:M"
    ensures MermaidCard(CardinalityText(a)) == MermaidCard(CardinalityText(b)) <==> a == b
    ensures MermaidCard(other) == MermaidCard(CardinalityText(OneToMany))
  {
  }

  /** `(rel.reason ?? rel.confidence).replace(/"/g, '')`. */
  function MermaidLabel(r: Relation): (shown: string)
    ensures '"' !in shown
    ensures r.reason.None? && '"' !in ConfidenceText(r.confidence) ==> shown == ConfidenceText(r.confidence)
  {
    LabelNoQuotes(ConfidenceText(r.confidence));
    ReplaceChar(r.reason.GetOr(ConfidenceText(r.confidence)), '"', "")
  }

  lemma {:induction false} LabelNoQuotes(s: string)
    requires '"' !in s
    ensures ReplaceChar(s, '"', "") == s
  {
    if |s| > 0 {
      LabelNoQuotes(s[1..]);
      assert s == [s[0]] + s[1..];
    }
  }

  function MermaidColumnLine(c: Column): string {
    "    " + SafeType(c.dataType) + " " + c.name + (if c.isPk then " PK" else "")
    + (if Truthy(c.comment) then " \"" + c.comment.value + "\"" else "")
  }

  function MermaidColumnLines(cols: seq<Column>): (r: seq<string>)
    ensures |r| == |cols|
  {
    if |cols| == 0 then [] else MermaidColumnLines(cols[..|cols| - 1]) + [MermaidColumnLine(cols[|cols| - 1])]
  }

  function MermaidHead(t: Table): string {
    "  " + t.name + " {"
  }

  function MermaidTableBlock(t: Table): seq<string> {
    [MermaidHead(t)] + MermaidColumnLines(t.columns) + ["  }"]
  }

  function MermaidTables(tables: seq<Table>): seq<string> {
    if |tables| == 0 then [] else MermaidTables(tables[..|tables| - 1]) + MermaidTableBlock(tables[|tables| - 1])
  }

  function MermaidRelLine(r: Relation): string {
    "  " + r.sourceTable + " " + MermaidCard(CardinalityText(r.cardinality)) + " " + r.targetTable
    + " : \"" + MermaidLabel(r) + "\""
  }

  function MermaidRelLines(rels: seq<Relation>): (r: seq<string>)
    ensures |r| == |rels|
  {
    if |rels| == 0 then [] else MermaidRelLines(rels[..|rels| - 1]) + [MermaidRelLine(rels[|rels| - 1])]
  }

  /** Every line `buildMermaid` joins. */
  function MermaidLines(m: ExtractResult, rels: seq<Relation>): seq<string> {
    ["erDiagram"] + MermaidTables(m.tables) + (if |rels| > 0 then [""] + MermaidRelLines(rels) else [])
  }

  /** `buildMermaid`. */
  method BuildMermaid(metadata: ExtractResult, relations: seq<Relation>) returns (text: string)
    ensures text == Join(MermaidLines(metadata, relations), "\n")
  {
    var lines := ["erDiagram"];
    var i := 0;
    while i < |metadata.tables|
      invariant 0 <= i <= |metadata.tables|
      invariant lines == ["erDiagram"] + MermaidTables(metadata.tables[..i])
    {
      var table := metadata.tables[i];
      ghost var before := lines;
      lines := lines + [MermaidHead(table)];
      ghost var headed := lines;
      var j := 0;
      while j < |table.columns|
        invariant 0 <= j <= |table.columns|
        invariant lines == headed + MermaidColumnLines(table.columns[..j])
      {
        var line := MermaidColumn(table.columns[j]);
        PushMermaidColumn(headed, table.columns, j, lines, line);
        lines := lines + [line];
        j := j + 1;
      }
      PushMermaidTable(before, metadata.tables, i, headed, lines);
      lines := lines + ["  }"];
      i := i + 1;
    }
    assert metadata.tables[..|metadata.tables|] == metadata.tables;
    if |relations| > 0 {
      lines := lines + [""];
      ghost var headed := lines;
      var k := 0;
      while k < |relations|
        invariant 0 <= k <= |relations|
        invariant lines == headed + MermaidRelLines(relations[..k])
      {
        var rel := relations[k];
        var card := MermaidCard(CardinalityText(rel.cardinality));
        var relLabel := ReplaceChar(rel.reason.GetOr(ConfidenceText(rel.confidence)), '"', "");
        var line := "  " + rel.sourceTable + " " + card + " " + rel.targetTable + " : \"" + relLabel + "\"";
        PushMermaidRel(headed, relations, k, lines, line);
        lines := lines + [line];
        k := k + 1;
      }
      assert relations[..|relations|] == relations;
      AppendAssoc(["erDiagram"] + MermaidTables(metadata.tables), [""], MermaidRelLines(relations));
    } else {
      assert lines + [] == lines;
    }
    text := Join(lines, "\n");
  }

  /** One column line of `buildMermaid`. */
  method MermaidColumn(col: Column) returns (line: string)
    ensures line == MermaidColumnLine(col)
  {
    var safeType := SafeType(col.dataType);
    var pkMark := if col.isPk then " PK" else "";
    var commentMark := if Truthy(col.comment) then " \"" + col.comment.value + "\"" else "";
    line := "    " + safeType + " " + col.name + pkMark + commentMark;
  }

  lemma {:induction false} PushMermaidColumn(headed: seq<string>, cols: seq<Column>, j: int, lines: seq<string>, line: string)
    requires 0 <= j < |cols| && lines == headed + MermaidColumnLines(cols[..j]) && line == MermaidColumnLine(cols[j])
    ensures lines + [line] == headed + MermaidColumnLines(cols[..j + 1])
  {
    MermaidColumnsSnoc(cols, j);
    AppendAssoc(headed, MermaidColumnLines(cols[..j]), [line]);
  }

  lemma MermaidColumnsSnoc(cols: seq<Column>, j: int)
    requires 0 <= j < |cols|
    ensures MermaidColumnLines(cols[..j + 1]) == MermaidColumnLines(cols[..j]) + [MermaidColumnLine(cols[j])]
  {
    assert cols[..j + 1][..j] == cols[..j];
  }

  lemma {:induction false} PushMermaidRel(headed: seq<string>, rels: seq<Relation>, k: int, lines: seq<string>, line: string)
    requires 0 <= k < |rels| && lines == headed + MermaidRelLines(rels[..k])
    requires line == MermaidRelLine(rels[k])
    ensures lines + [line] == headed + MermaidRelLines(rels[..k + 1])
  {
    assert rels[..k + 1][..k] == rels[..k];
    AppendAssoc(headed, MermaidRelLines(rels[..k]), [line]);
  }

  /** Closing the block of table `i` extends the table lines by that block. */
  lemma {:induction false} PushMermaidTable(before: seq<string>, tables: seq<Table>, i: int, headed: seq<string>, lines: seq<string>)
    requires 0 <= i < |tables| && before == ["erDiagram"] + MermaidTables(tables[..i])
    requires headed == before + [MermaidHead(tables[i])]
    requires lines == headed + MermaidColumnLines(tables[i].columns[..|tables[i].columns|])
    ensures lines + ["  }"] == ["erDiagram"] + MermaidTables(tables[..i + 1])
  {
    var t := tables[i];
    assert t.columns[..|t.columns|] == t.columns;
    MermaidTablesSnoc(tables, i);
    CloseBlock(["erDiagram"], MermaidTables(tables[..i]), MermaidHead(t), MermaidColumnLines(t.columns), "  }", lines);
  }

  lemma MermaidTablesSnoc(tables: seq<Table>, i: int)
    requires 0 <= i < |tables|
    ensures MermaidTables(tables[..i + 1]) == MermaidTables(tables[..i]) + MermaidTableBlock(tables[i])
  {
    assert tables[..i + 1][..i] == tables[..i];
  }

  lemma {:induction false} CloseBlock(h: seq<string>, done: seq<string>, open: string, body: seq<string>, close: string, lines: seq<string>)
    requires lines == h + done + [open] + body
    ensures lines + [close] == h + (done + ([open] + body + [close]))
  {
    AppendAssoc(h, done, [open] + body + [close]);
    BlockAppend(h + done, open, body, [close]);
  }

  /** No line of the table blocks is empty. */
  lemma {:induction false} MermaidTablesNonEmpty(tables: seq<Table>)
    ensures forall s :: s in MermaidTables(tables) ==> s != ""
  {
    if |tables| > 0 {
      var init := tables[..|tables| - 1];
      var t := tables[|tables| - 1];
      MermaidTablesNonEmpty(init);
      BlockNonEmpty(t);
      NoEmptyAppend(MermaidTables(init), MermaidTableBlock(t));
      assert MermaidTables(tables) == MermaidTables(init) + MermaidTableBlock(t);
    }
  }

  lemma BlockNonEmpty(t: Table)
    ensures forall s :: s in MermaidTableBlock(t) ==> s != ""
  {
    MermaidColumnsNonEmpty(t.columns);
    assert |MermaidHead(t)| > 0;
  }

  lemma NoEmptyAppend(a: seq<string>, b: seq<string>)
    requires forall s :: s in a ==> s != ""
    requires forall s :: s in b ==> s != ""
    ensures forall s :: s in a + b ==> s != ""
  {
  }

  lemma {:induction false} MermaidColumnsNonEmpty(cols: seq<Column>)
    ensures forall s :: s in MermaidColumnLines(cols) ==> s != ""
  {
    if |cols| > 0 {
      MermaidColumnsNonEmpty(cols[..|cols| - 1]);
    }
  }

  /** The blank line before the relation block appears iff there are relations. */
  lemma {:induction false} MermaidBlankIff(m: ExtractResult, rels: seq<Relation>)
    ensures "" in MermaidLines(m, rels) <==> |rels| > 0
  {
    MermaidTablesNonEmpty(m.tables);
    assert "erDiagram" != "";
  }
}
