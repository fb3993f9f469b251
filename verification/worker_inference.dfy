/**
 * The worker's relation inferrer (worker/app/services/inference_service.py).
 *
 * Three passes propose relations and a shared `add` keeps only the first
 * relation for each (source table, source column, target table, target
 * column, confidence): declared foreign keys; the `_id`, `_cd`/`_code` and `_no`
 * column-name rules against plural/singular candidate tables, with a comment
 * bonus; and columns of other tables named like a primary key.
 *
 * Scores are kept in hundredths: 0.8 + 0.1 is 90, 0.45 + 0.1 is 55, and the
 * confidence buckets are those the floating-point comparisons give.
 */
module WorkerInference {
  import opened Wrappers
  import opened Text
  import opened Schema

  // ------------------------------------------------------------ helpers

  /** `_norm`. */
  function Norm(name: string): string {
    ToLower(name)
  }

  /** The three spellings `_candidate_tables` tries, in order. */
  function Spellings(base: string): seq<string> {
    [base, base + "s", RStrip(base, 's')]
  }

  /**
   * `_candidate_tables`: the spellings that are table names, in the order
   * tried, repeats kept (`base` is tried twice when it does not end in `s`).
   */
  function CandidateTables(tableNames: set<string>, base: string): (out: seq<string>)
    ensures forall c :: c in out ==> c in tableNames && c in Spellings(base)
    ensures forall c :: c in Spellings(base) && c in tableNames ==> c in out
  {
    Kept(tableNames, Spellings(base))
  }

  /** The loop of `_candidate_tables`. */
  method CandidateTablesLoop(tableNames: set<string>, base: string) returns (out: seq<string>)
    ensures out == CandidateTables(tableNames, base)
  {
    var candidates := Spellings(base);
    out := [];
    for i := 0 to |candidates|
      invariant out == Kept(tableNames, candidates[..i])
    {
      assert candidates[..i + 1][..i] == candidates[..i];
      if candidates[i] in tableNames {
        out := out + [candidates[i]];
      }
    }
    assert candidates[..|candidates|] == candidates;
  }

  /** The elements of `cs` that are in `names`, in order. */
  function Kept(names: set<string>, cs: seq<string>): (out: seq<string>)
    ensures forall i :: 0 <= i < |out| ==> out[i] in names && out[i] in cs
    ensures forall i :: 0 <= i < |cs| && cs[i] in names ==> cs[i] in out
  {
    if |cs| == 0 then []
    else
      var init := cs[..|cs| - 1];
      var out := Kept(names, init) + (if cs[|cs| - 1] in names then [cs[|cs| - 1]] else []);
      assert forall i :: 0 <= i < |init| ==> init[i] == cs[i];
      out
  }

  /** `_confidence_from_score` on hundredths. */
  function ConfidenceFromScore(score: int): (c: Confidence)
    ensures c == FK <==> score >= 90
    ensures c == HIGH <==> 75 <= score < 90
    ensures c == MEDIUM <==> 55 <= score < 75
    ensures c == LOW <==> score < 55
  {
    if score >= 90 then FK
    else if score >= 75 then HIGH
    else if score >= 55 then MEDIUM
    else LOW
  }

  /** A higher score never gives a lower bucket. */
  lemma {:induction false} ConfidenceMonotone(s1: int, s2: int)
    requires s1 <= s2
    ensures Rank(ConfidenceFromScore(s1)) <= Rank(ConfidenceFromScore(s2))
  {
  }

  // ------------------------------------------------------------ relations

  /** The dedup key: endpoints and confidence. */
  function Key(r: Relation): (string, string, string, string, Confidence) {
    (r.sourceTable, r.sourceColumn, r.targetTable, r.targetColumn, r.confidence)
  }

  function FkRel(tableName: string, fk: FkRef): Relation {
    Relation(tableName, fk.columnName, fk.refTable, fk.refColumn, FK, ManyToOne,
      Some("FK constraint"),
      Some(tableName + "." + fk.columnName + " -> " + fk.refTable + "." + fk.refColumn),
      Some(100))
  }

  /** The three column-name rules: base score, target column and reason label. */
  datatype NameRule = IdName | CodeName | NoName

  function BaseScore(rule: NameRule): int {
    match rule
    case IdName => 80
    case CodeName => 60
    case NoName => 45
  }

  function TargetColumn(rule: NameRule): string {
    match rule
    case IdName => "id"
    case CodeName => "code"
    case NoName => "no"
  }

  function RuleLabel(rule: NameRule): string {
    match rule
    case IdName => "컬럼명 _id 규칙"
    case CodeName => "컬럼명 _cd/_code 규칙"
    case NoName => "컬럼명 _no 규칙"
  }

  const COMMENT_LABEL: string := "컬럼 코멘트 일치"
  const PK_LABEL: string := "PK 컬럼명 직접 일치"

  /** What the pattern rules look up: the lower-case table names and their comments. */
  datatype Lookup = Lookup(names: set<string>, comments: map<string, string>)

  /** `table_comment_map`: lower-case name to comment or `''` (later tables win). */
  function CommentMap(tables: seq<Table>): map<string, string> {
    if |tables| == 0 then map[]
    else
      var t := tables[|tables| - 1];
      CommentMap(tables[..|tables| - 1])[Norm(t.name) := t.comment.GetOr("")]
  }

  function TableNames(tables: seq<Table>): set<string> {
    set t | t in tables :: Norm(t.name)
  }

  /** How Python prints `col.comment`. */
  function Shown(c: Option<string>): string {
    match c
    case None => "None"
    case Some(s) => s
  }

  /** The column comment mentions the target name or the target's non-empty comment. */
  predicate CommentHit(lookup: Lookup, col: Column, target: string) {
    var colComment := ToLower(col.comment.GetOr(""));
    var tComment := ToLower(if target in lookup.comments then lookup.comments[target] else "");
    Contains(colComment, target) || (tComment != "" && Contains(colComment, tComment))
  }

  /** The reason parts: the rule's label, then the comment label on a hit. */
  function Reasons(rule: NameRule, hit: bool): seq<string> {
    [RuleLabel(rule)] + (if hit then [COMMENT_LABEL] else [])
  }

  /** The evidence parts: the endpoints, then the column comment on a hit. */
  function Evidence(tableName: string, col: Column, target: string, rule: NameRule, hit: bool): seq<string> {
    [tableName + "." + col.name + " -> " + target + "." + TargetColumn(rule)]
      + (if hit then ["comment: " + Shown(col.comment)] else [])
  }

  /** The relation a name rule proposes towards one candidate table. */
  function RuleRel(lookup: Lookup, tableName: string, col: Column, target: string, rule: NameRule): Relation {
    var hit := CommentHit(lookup, col, target);
    var score := BaseScore(rule) + (if hit then 10 else 0);
    Relation(tableName, col.name, target, TargetColumn(rule), ConfidenceFromScore(score), ManyToOne,
      Some(Join(Reasons(rule, hit), " + ")),
      Some(Join(Evidence(tableName, col, target, rule, hit), "; ")),
      Some(score))
  }

  function RuleRels(lookup: Lookup, tableName: string, col: Column, targets: seq<string>, rule: NameRule): seq<Relation> {
    if |targets| == 0 then []
    else
      var init := RuleRels(lookup, tableName, col, targets[..|targets| - 1], rule);
      init + [RuleRel(lookup, tableName, col, targets[|targets| - 1], rule)]
  }

  /** The base of a `_cd`/`_code` name: every `_code`, then every `_cd`, removed. */
  function CodeBase(name: string): string {
    RemoveAll(RemoveAll(name, "_code"), "_cd")
  }

  predicate IsCodeName(name: string) {
    EndsWith(name, "_cd") || EndsWith(name, "_code")
  }

  /** Pass 2 for one column: the three rules, each applied independently. */
  function ColumnRels(lookup: Lookup, tableName: string, col: Column): seq<Relation> {
    var name := Norm(col.name);
    (if EndsWith(name, "_id")
     then RuleRels(lookup, tableName, col, CandidateTables(lookup.names, name[..|name| - 3]), IdName)
     else []) +
    (if IsCodeName(name)
     then RuleRels(lookup, tableName, col, CandidateTables(lookup.names, CodeBase(name)), CodeName)
     else []) +
    (if EndsWith(name, "_no")
     then RuleRels(lookup, tableName, col, CandidateTables(lookup.names, name[..|name| - 3]), NoName)
     else [])
  }

  function PkRel(source: Table, col: Column, target: Table, pk: string): Relation {
    Relation(source.name, col.name, target.name, pk, ConfidenceFromScore(55), ManyToOne,
      Some(PK_LABEL), Some(source.name + "." + col.name + " == " + target.name + "." + pk), Some(55))
  }

  // ------------------------------------------------------------ the three passes

  function TableFkRels(tableName: string, fks: seq<FkRef>): seq<Relation> {
    if |fks| == 0 then []
    else TableFkRels(tableName, fks[..|fks| - 1]) + [FkRel(tableName, fks[|fks| - 1])]
  }

  function FkPassRels(tables: seq<Table>): seq<Relation> {
    if |tables| == 0 then []
    else
      var t := tables[|tables| - 1];
      FkPassRels(tables[..|tables| - 1]) + TableFkRels(t.name, t.fkRefs)
  }

  function ColumnsRels(lookup: Lookup, tableName: string, cols: seq<Column>): seq<Relation> {
    if |cols| == 0 then []
    else ColumnsRels(lookup, tableName, cols[..|cols| - 1]) + ColumnRels(lookup, tableName, cols[|cols| - 1])
  }

  function PatternPassRels(lookup: Lookup, tables: seq<Table>): seq<Relation> {
    if |tables| == 0 then []
    else
      var t := tables[|tables| - 1];
      PatternPassRels(lookup, tables[..|tables| - 1]) + ColumnsRels(lookup, t.name, t.columns)
  }

  /** Columns of `source` named like `pk` of `target`. */
  function PkMatchRels(target: Table, pk: string, source: Table, cols: seq<Column>): seq<Relation> {
    if |cols| == 0 then []
    else
      var col := cols[|cols| - 1];
      PkMatchRels(target, pk, source, cols[..|cols| - 1]) +
      (if Norm(col.name) == Norm(pk) then [PkRel(source, col, target, pk)] else [])
  }

  /** One PK of `target` against every other table. */
  function PkSourcesRels(target: Table, pk: string, sources: seq<Table>): seq<Relation> {
    if |sources| == 0 then []
    else
      var t := sources[|sources| - 1];
      PkSourcesRels(target, pk, sources[..|sources| - 1]) +
      (if t.name == target.name then [] else PkMatchRels(target, pk, t, t.columns))
  }

  function PkListRels(target: Table, pks: seq<string>, all: seq<Table>): seq<Relation> {
    if |pks| == 0 then []
    else PkListRels(target, pks[..|pks| - 1], all) + PkSourcesRels(target, pks[|pks| - 1], all)
  }

  function PkPassRels(targets: seq<Table>, all: seq<Table>): seq<Relation> {
    if |targets| == 0 then []
    else
      var t := targets[|targets| - 1];
      PkPassRels(targets[..|targets| - 1], all) + PkListRels(t, t.pkColumns, all)
  }

  /** Every relation the three passes propose, in the order they are proposed. */
  function Proposals(tables: seq<Table>): seq<Relation> {
    var lookup := Lookup(TableNames(tables), CommentMap(tables));
    FkPassRels(tables) + PatternPassRels(lookup, tables) + PkPassRels(tables, tables)
  }

  // ------------------------------------------------------------ add / seen

  datatype Acc = Acc(rels: seq<Relation>, seen: set<(string, string, string, string, Confidence)>)

  /** The `add` closure. */
  function Add(acc: Acc, r: Relation): Acc {
    if Key(r) in acc.seen then acc else Acc(acc.rels + [r], acc.seen + {Key(r)})
  }

  function AddAll(acc: Acc, rs: seq<Relation>): Acc {
    if |rs| == 0 then acc else Add(AddAll(acc, rs[..|rs| - 1]), rs[|rs| - 1])
  }

  /** What `infer_relations` returns. */
  function InferPy(tables: seq<Table>): seq<Relation> {
    AddAll(Acc([], {}), Proposals(tables)).rels
  }

  lemma {:induction false} AddAllAppend(acc: Acc, a: seq<Relation>, b: seq<Relation>)
    ensures AddAll(acc, a + b) == AddAll(AddAll(acc, a), b)
    decreases |b|
  {
    if |b| == 0 {
      assert a + b == a;
    } else {
      assert (a + b)[..|a + b| - 1] == a + b[..|b| - 1];
      AddAllAppend(acc, a, b[..|b| - 1]);
    }
  }

  lemma {:induction false} AddAllSnoc(acc: Acc, rs: seq<Relation>, r: Relation)
    ensures AddAll(acc, rs + [r]) == Add(AddAll(acc, rs), r)
  {
    assert (rs + [r])[..|rs|] == rs;
  }

  // ------------------------------------------------------------ the loops

  /** Pass 1: every declared foreign key, table by table. */
  method AddFkPass(tables: seq<Table>, acc0: Acc) returns (acc: Acc)
    ensures acc == AddAll(acc0, FkPassRels(tables))
  {
    acc := acc0;
    for i := 0 to |tables|
      invariant acc == AddAll(acc0, FkPassRels(tables[..i]))
    {
      var table := tables[i];
      ghost var done := FkPassRels(tables[..i]);
      assert table.fkRefs[..0] == [] && done + [] == done;
      for j := 0 to |table.fkRefs|
        invariant acc == AddAll(acc0, done + TableFkRels(table.name, table.fkRefs[..j]))
      {
        var r := FkRel(table.name, table.fkRefs[j]);
        ghost var before := TableFkRels(table.name, table.fkRefs[..j]);
        assert table.fkRefs[..j + 1][..j] == table.fkRefs[..j];
        assert TableFkRels(table.name, table.fkRefs[..j + 1]) == before + [r];
        assert done + (before + [r]) == (done + before) + [r];
        AddAllSnoc(acc0, done + before, r);
        acc := Add(acc, r);
      }
      assert table.fkRefs[..|table.fkRefs|] == table.fkRefs;
      assert tables[..i + 1][..i] == tables[..i];
    }
    assert tables[..|tables|] == tables;
  }

  /** The body of one rule's loop: base score, then the comment bonus. */
  method RuleRelFor(lookup: Lookup, tableName: string, col: Column, target: string, rule: NameRule)
    returns (r: Relation)
    ensures r == RuleRel(lookup, tableName, col, target, rule)
  {
    var colComment := ToLower(col.comment.GetOr(""));
    var score := BaseScore(rule);
    var reason := [RuleLabel(rule)];
    var evidence := [tableName + "." + col.name + " -> " + target + "." + TargetColumn(rule)];
    var tComment := ToLower(if target in lookup.comments then lookup.comments[target] else "");
    if Contains(colComment, target) || (tComment != "" && Contains(colComment, tComment)) {
      score := score + 10;
      reason := reason + [COMMENT_LABEL];
      evidence := evidence + ["comment: " + Shown(col.comment)];
    }
    r := Relation(tableName, col.name, target, TargetColumn(rule), ConfidenceFromScore(score),
      ManyToOne, Some(Join(reason, " + ")), Some(Join(evidence, "; ")), Some(score));
  }

  /** One rule's loop over the candidate tables. */
  method AddRuleTargets(lookup: Lookup, tableName: string, col: Column, targets: seq<string>,
                        rule: NameRule, acc0: Acc) returns (acc: Acc)
    ensures acc == AddAll(acc0, RuleRels(lookup, tableName, col, targets, rule))
  {
    acc := acc0;
    for k := 0 to |targets|
      invariant acc == AddAll(acc0, RuleRels(lookup, tableName, col, targets[..k], rule))
    {
      var r := RuleRelFor(lookup, tableName, col, targets[k], rule);
      assert targets[..k + 1][..k] == targets[..k];
      assert RuleRels(lookup, tableName, col, targets[..k + 1], rule)
          == RuleRels(lookup, tableName, col, targets[..k], rule) + [r];
      AddAllSnoc(acc0, RuleRels(lookup, tableName, col, targets[..k], rule), r);
      acc := Add(acc, r);
    }
    assert targets[..|targets|] == targets;
  }

  /** Pass 2 for one column: each rule whose suffix matches, independently. */
  method AddColumn(lookup: Lookup, tableName: string, col: Column, acc0: Acc) returns (acc: Acc)
    ensures acc == AddAll(acc0, ColumnRels(lookup, tableName, col))
  {
    var name := Norm(col.name);
    ghost var idPart := if EndsWith(name, "_id")
      then RuleRels(lookup, tableName, col, CandidateTables(lookup.names, name[..|name| - 3]), IdName) else [];
    ghost var codePart := if IsCodeName(name)
      then RuleRels(lookup, tableName, col, CandidateTables(lookup.names, CodeBase(name)), CodeName) else [];
    ghost var noPart := if EndsWith(name, "_no")
      then RuleRels(lookup, tableName, col, CandidateTables(lookup.names, name[..|name| - 3]), NoName) else [];
    acc := acc0;
    if EndsWith(name, "_id") {
      var targets := CandidateTablesLoop(lookup.names, name[..|name| - 3]);
      acc := AddRuleTargets(lookup, tableName, col, targets, IdName, acc);
    }
    assert acc == AddAll(acc0, idPart);
    if EndsWith(name, "_cd") || EndsWith(name, "_code") {
      var targets := CandidateTablesLoop(lookup.names, CodeBase(name));
      acc := AddRuleTargets(lookup, tableName, col, targets, CodeName, acc);
    }
    AddAllAppend(acc0, idPart, codePart);
    if EndsWith(name, "_no") {
      var targets := CandidateTablesLoop(lookup.names, name[..|name| - 3]);
      acc := AddRuleTargets(lookup, tableName, col, targets, NoName, acc);
    }
    AddAllAppend(acc0, idPart + codePart, noPart);
  }

  /** Pass 2: every column of every table. */
  method AddPatternPass(lookup: Lookup, tables: seq<Table>, acc0: Acc) returns (acc: Acc)
    ensures acc == AddAll(acc0, PatternPassRels(lookup, tables))
  {
    acc := acc0;
    for i := 0 to |tables|
      invariant acc == AddAll(acc0, PatternPassRels(lookup, tables[..i]))
    {
      var table := tables[i];
      ghost var done := PatternPassRels(lookup, tables[..i]);
      acc := AddColumns(lookup, table.name, table.columns, acc);
      AddAllAppend(acc0, done, ColumnsRels(lookup, table.name, table.columns));
      assert tables[..i + 1][..i] == tables[..i];
    }
    assert tables[..|tables|] == tables;
  }

  /** Pass 2 for one table: its columns in order. */
  method AddColumns(lookup: Lookup, tableName: string, cols: seq<Column>, acc0: Acc) returns (acc: Acc)
    ensures acc == AddAll(acc0, ColumnsRels(lookup, tableName, cols))
  {
    acc := acc0;
    for j := 0 to |cols|
      invariant acc == AddAll(acc0, ColumnsRels(lookup, tableName, cols[..j]))
    {
      ghost var before := ColumnsRels(lookup, tableName, cols[..j]);
      acc := AddColumn(lookup, tableName, cols[j], acc);
      AddAllAppend(acc0, before, ColumnRels(lookup, tableName, cols[j]));
      assert cols[..j + 1][..j] == cols[..j];
    }
    assert cols[..|cols|] == cols;
  }

  /** Pass 3, innermost: the columns of `source` named like `pk`. */
  method AddPkMatches(target: Table, pk: string, source: Table, acc0: Acc) returns (acc: Acc)
    ensures acc == AddAll(acc0, PkMatchRels(target, pk, source, source.columns))
  {
    acc := acc0;
    var pkNorm := Norm(pk);
    for m := 0 to |source.columns|
      invariant acc == AddAll(acc0, PkMatchRels(target, pk, source, source.columns[..m]))
    {
      var col := source.columns[m];
      ghost var before := PkMatchRels(target, pk, source, source.columns[..m]);
      assert source.columns[..m + 1][..m] == source.columns[..m];
      if Norm(col.name) == pkNorm {
        var r := PkRel(source, col, target, pk);
        assert PkMatchRels(target, pk, source, source.columns[..m + 1]) == before + [r];
        AddAllSnoc(acc0, before, r);
        acc := Add(acc, r);
      } else {
        assert PkMatchRels(target, pk, source, source.columns[..m + 1]) == before + [];
        assert before + [] == before;
      }
    }
    assert source.columns[..|source.columns|] == source.columns;
  }

  /** Pass 3 for one PK: every other table. */
  method AddPkSources(target: Table, pk: string, all: seq<Table>, acc0: Acc) returns (acc: Acc)
    ensures acc == AddAll(acc0, PkSourcesRels(target, pk, all))
  {
    acc := acc0;
    for k := 0 to |all|
      invariant acc == AddAll(acc0, PkSourcesRels(target, pk, all[..k]))
    {
      var t := all[k];
      ghost var before := PkSourcesRels(target, pk, all[..k]);
      assert all[..k + 1][..k] == all[..k];
      if t.name != target.name {
        acc := AddPkMatches(target, pk, t, acc);
        assert PkSourcesRels(target, pk, all[..k + 1]) == before + PkMatchRels(target, pk, t, t.columns);
        AddAllAppend(acc0, before, PkMatchRels(target, pk, t, t.columns));
      } else {
        assert PkSourcesRels(target, pk, all[..k + 1]) == before + [];
        assert before + [] == before;
      }
    }
    assert all[..|all|] == all;
  }

  /** Pass 3 for one table: each of its PK columns. */
  method AddPkList(target: Table, pks: seq<string>, all: seq<Table>, acc0: Acc) returns (acc: Acc)
    ensures acc == AddAll(acc0, PkListRels(target, pks, all))
  {
    acc := acc0;
    for j := 0 to |pks|
      invariant acc == AddAll(acc0, PkListRels(target, pks[..j], all))
    {
      ghost var before := PkListRels(target, pks[..j], all);
      acc := AddPkSources(target, pks[j], all, acc);
      AddAllAppend(acc0, before, PkSourcesRels(target, pks[j], all));
      assert pks[..j + 1][..j] == pks[..j];
    }
    assert pks[..|pks|] == pks;
  }

  /** Pass 3: every PK column of every table. */
  method AddPkPass(tables: seq<Table>, acc0: Acc) returns (acc: Acc)
    ensures acc == AddAll(acc0, PkPassRels(tables, tables))
  {
    acc := acc0;
    for i := 0 to |tables|
      invariant acc == AddAll(acc0, PkPassRels(tables[..i], tables))
    {
      var table := tables[i];
      ghost var done := PkPassRels(tables[..i], tables);
      acc := AddPkList(table, table.pkColumns, tables, acc);
      AddAllAppend(acc0, done, PkListRels(table, table.pkColumns, tables));
      assert tables[..i + 1][..i] == tables[..i];
    }
    assert tables[..|tables|] == tables;
  }

  /** `infer_relations`. */
  method InferRelationsPy(metadata: SchemaMetadataTables) returns (relations: seq<Relation>)
    ensures relations == InferPy(metadata)
    ensures |metadata| == 0 ==> relations == []
  {
    var tables := metadata;
    var lookup := Lookup(set t | t in tables :: Norm(t.name), CommentMap(tables));
    var acc := Acc([], {});
    acc := AddFkPass(tables, acc);
    acc := AddPatternPass(lookup, tables, acc);
    acc := AddPkPass(tables, acc);
    AddAllAppend(Acc([], {}), FkPassRels(tables), PatternPassRels(lookup, tables));
    AddAllAppend(Acc([], {}), FkPassRels(tables) + PatternPassRels(lookup, tables), PkPassRels(tables, tables));
    relations := acc.rels;
  }

  /** The worker's schema metadata is its list of tables. */
  type SchemaMetadataTables = seq<Table>

  // ------------------------------------------------------------ what `add` keeps

  type RelKey = (string, string, string, string, Confidence)

  function Keys(rs: seq<Relation>): set<RelKey> {
    set r | r in rs :: Key(r)
  }

  /** No two relations share a dedup key. */
  predicate DistinctKeys(rs: seq<Relation>) {
    forall i, j :: 0 <= i < j < |rs| ==> Key(rs[i]) != Key(rs[j])
  }

  /** `seen` holds exactly the keys of the relations kept so far, each once. */
  predicate AccInv(acc: Acc) {
    acc.seen == Keys(acc.rels) && DistinctKeys(acc.rels)
  }

  lemma {:induction false} AddAllFacts(acc: Acc, rs: seq<Relation>)
    requires AccInv(acc)
    ensures AccInv(AddAll(acc, rs))
    ensures acc.rels <= AddAll(acc, rs).rels
    ensures AddAll(acc, rs).seen == acc.seen + Keys(rs)
    ensures forall r :: r in AddAll(acc, rs).rels ==> r in acc.rels || r in rs
    decreases |rs|
  {
    if |rs| > 0 {
      AddAllFacts(acc, rs[..|rs| - 1]);
      KeepFacts(acc, rs, AddAll(acc, rs[..|rs| - 1]));
    }
  }

  /** The step of `AddAllFacts`: what holds for the prefix carries over one more `add`. */
  lemma {:induction false} KeepFacts(acc: Acc, rs: seq<Relation>, mid: Acc)
    requires |rs| > 0 && AccInv(mid)
    requires acc.rels <= mid.rels
    requires mid.seen == acc.seen + Keys(rs[..|rs| - 1])
    requires forall r :: r in mid.rels ==> r in acc.rels || r in rs[..|rs| - 1]
    ensures AccInv(Add(mid, rs[|rs| - 1]))
    ensures acc.rels <= Add(mid, rs[|rs| - 1]).rels
    ensures Add(mid, rs[|rs| - 1]).seen == acc.seen + Keys(rs)
    ensures forall r :: r in Add(mid, rs[|rs| - 1]).rels ==> r in acc.rels || r in rs
  {
    var x := rs[|rs| - 1];
    AddFacts(mid, x);
    KeysSnoc(rs);
    assert forall r :: r in rs[..|rs| - 1] ==> r in rs by {
      assert rs == rs[..|rs| - 1] + [x];
    }
  }

  /** One `add` keeps the invariant, extends the list and records the key. */
  lemma {:induction false} AddFacts(mid: Acc, x: Relation)
    requires AccInv(mid)
    ensures AccInv(Add(mid, x))
    ensures mid.rels <= Add(mid, x).rels
    ensures Add(mid, x).seen == mid.seen + {Key(x)}
    ensures forall r :: r in Add(mid, x).rels ==> r in mid.rels || r == x
  {
    if Key(x) !in mid.seen {
      var rels := mid.rels + [x];
      forall i, j | 0 <= i < j < |rels|
        ensures Key(rels[i]) != Key(rels[j])
      {
        if j == |rels| - 1 {
          assert rels[i] in mid.rels;
        } else {
          assert rels[i] == mid.rels[i] && rels[j] == mid.rels[j];
        }
      }
      assert Keys(rels) == Keys(mid.rels) + {Key(x)};
    }
  }

  lemma {:induction false} KeysSnoc(rs: seq<Relation>)
    requires |rs| > 0
    ensures Keys(rs) == Keys(rs[..|rs| - 1]) + {Key(rs[|rs| - 1])}
  {
    assert rs == rs[..|rs| - 1] + [rs[|rs| - 1]];
  }

  /** Later additions never drop what `add` has kept. */
  lemma {:induction false} AddAllGrows(acc: Acc, a: seq<Relation>, b: seq<Relation>)
    requires AccInv(acc)
    ensures AddAll(acc, a).rels <= AddAll(acc, a + b).rels
  {
    AddAllAppend(acc, a, b);
    AddAllFacts(acc, a);
    AddAllFacts(AddAll(acc, a), b);
  }

  /** A relation whose key is new, both to `acc` and earlier in `rs`, is kept. */
  lemma {:induction false} AddAllKeepsFirst(acc: Acc, rs: seq<Relation>, i: int)
    requires AccInv(acc) && 0 <= i < |rs|
    requires Key(rs[i]) !in acc.seen && Key(rs[i]) !in Keys(rs[..i])
    ensures rs[i] in AddAll(acc, rs).rels
  {
    var front, back := rs[..i + 1], rs[i + 1..];
    AddAllAddsNew(acc, rs[..i], rs[i]);
    assert rs[..i] + [rs[i]] == front;
    assert front + back == rs;
    AddAllGrows(acc, front, back);
  }

  lemma {:induction false} AddAllAddsNew(acc: Acc, rs: seq<Relation>, x: Relation)
    requires AccInv(acc)
    requires Key(x) !in acc.seen && Key(x) !in Keys(rs)
    ensures x in AddAll(acc, rs + [x]).rels
  {
    AddAllFacts(acc, rs);
    AddAllSnoc(acc, rs, x);
  }

  /** The result never holds two relations with the same key. */
  lemma {:induction false} InferPyDistinct(tables: seq<Table>)
    ensures DistinctKeys(InferPy(tables))
  {
    AddAllFacts(Acc([], {}), Proposals(tables));
  }

  /**
   * The result is drawn from the proposals, every proposed key is kept, and
   * the first proposal with a given key is the one kept.
   */
  lemma {:induction false} InferPyKeepsFirst(tables: seq<Table>)
    ensures forall r :: r in InferPy(tables) ==> r in Proposals(tables)
    ensures Keys(InferPy(tables)) == Keys(Proposals(tables))
    ensures forall i :: (0 <= i < |Proposals(tables)| && Key(Proposals(tables)[i]) !in Keys(Proposals(tables)[..i]))
                        ==> Proposals(tables)[i] in InferPy(tables)
  {
    var ps := Proposals(tables);
    AddAllFacts(Acc([], {}), ps);
    forall i | 0 <= i < |ps| && Key(ps[i]) !in Keys(ps[..i])
      ensures ps[i] in InferPy(tables)
    {
      AddAllKeepsFirst(Acc([], {}), ps, i);
    }
  }

  // ------------------------------------------------------------ where proposals come from

  lemma {:induction false} TableFkHas(tableName: string, fks: seq<FkRef>, k: int)
    requires 0 <= k < |fks|
    ensures FkRel(tableName, fks[k]) in TableFkRels(tableName, fks)
    decreases |fks|
  {
    if k < |fks| - 1 {
      TableFkHas(tableName, fks[..|fks| - 1], k);
    }
  }

  lemma {:induction false} FkPassHas(tables: seq<Table>, i: int, k: int)
    requires 0 <= i < |tables| && 0 <= k < |tables[i].fkRefs|
    ensures FkRel(tables[i].name, tables[i].fkRefs[k]) in FkPassRels(tables)
    decreases |tables|
  {
    if i < |tables| - 1 {
      FkPassHas(tables[..|tables| - 1], i, k);
    } else {
      TableFkHas(tables[i].name, tables[i].fkRefs, k);
    }
  }

  /** A relation of the shape pass 1 builds: everything follows from its endpoints. */
  predicate IsFkRel(r: Relation) {
    r == FkRel(r.sourceTable, FkRef(r.sourceColumn, "", r.targetTable, r.targetColumn, None, None))
  }

  lemma {:induction false} FkPassShape(tables: seq<Table>)
    ensures forall r :: r in FkPassRels(tables) ==> IsFkRel(r)
    decreases |tables|
  {
    if |tables| > 0 {
      FkPassShape(tables[..|tables| - 1]);
      var t := tables[|tables| - 1];
      TableFkShape(t.name, t.fkRefs);
    }
  }

  lemma {:induction false} TableFkShape(tableName: string, fks: seq<FkRef>)
    ensures forall r :: r in TableFkRels(tableName, fks) ==> IsFkRel(r)
    decreases |fks|
  {
    if |fks| > 0 {
      TableFkShape(tableName, fks[..|fks| - 1]);
    }
  }

  /**
   * Every declared foreign key comes out exactly as pass 1 builds it: FK
   * confidence, N:1, score 1.0 — whatever the later passes propose for the
   * same endpoints.
   */
  lemma {:induction false} InferPyKeepsFks(tables: seq<Table>, i: int, k: int)
    requires 0 <= i < |tables| && 0 <= k < |tables[i].fkRefs|
    ensures FkRel(tables[i].name, tables[i].fkRefs[k]) in InferPy(tables)
  {
    var x := FkRel(tables[i].name, tables[i].fkRefs[k]);
    var lookup := Lookup(TableNames(tables), CommentMap(tables));
    var fks := FkPassRels(tables);
    var rest := PatternPassRels(lookup, tables) + PkPassRels(tables, tables);
    assert Proposals(tables) == fks + rest;
    FkPassHas(tables, i, k);
    FkPassShape(tables);
    var a := AddAll(Acc([], {}), fks);
    AddAllFacts(Acc([], {}), fks);
    AddAllAppend(Acc([], {}), fks, rest);
    AddAllFacts(a, rest);
    assert Key(x) in a.seen;
    var y :| y in a.rels && Key(y) == Key(x);
    assert IsFkRel(y);
    assert y == x;
  }

  lemma {:induction false} ColumnsHas(lookup: Lookup, tableName: string, cols: seq<Column>, j: int)
    requires 0 <= j < |cols|
    ensures forall r :: r in ColumnRels(lookup, tableName, cols[j]) ==> r in ColumnsRels(lookup, tableName, cols)
    decreases |cols|
  {
    if j < |cols| - 1 {
      ColumnsHas(lookup, tableName, cols[..|cols| - 1], j);
    }
  }

  lemma {:induction false} PatternPassHas(lookup: Lookup, tables: seq<Table>, i: int, j: int)
    requires 0 <= i < |tables| && 0 <= j < |tables[i].columns|
    ensures forall r :: (r in ColumnRels(lookup, tables[i].name, tables[i].columns[j])
                        ==> r in PatternPassRels(lookup, tables))
    decreases |tables|
  {
    ColumnsHas(lookup, tables[i].name, tables[i].columns, j);
    if i < |tables| - 1 {
      PatternPassHas(lookup, tables[..|tables| - 1], i, j);
    }
  }

  /**
   * Pass 2 skips no column: a rule relation proposed for any column — a PK
   * column or one already covered by a foreign key included — has its key in
   * the result.
   */
  lemma {:induction false} InferPyCoversColumns(tables: seq<Table>, i: int, j: int, r: Relation)
    requires 0 <= i < |tables| && 0 <= j < |tables[i].columns|
    requires r in ColumnRels(Lookup(TableNames(tables), CommentMap(tables)), tables[i].name, tables[i].columns[j])
    ensures Key(r) in Keys(InferPy(tables))
  {
    var lookup := Lookup(TableNames(tables), CommentMap(tables));
    PatternPassHas(lookup, tables, i, j);
    assert r in Proposals(tables);
    InferPyKeepsFirst(tables);
  }

  lemma {:induction false} PkMatchHas(target: Table, pk: string, source: Table, cols: seq<Column>, m: int)
    requires 0 <= m < |cols| && Norm(cols[m].name) == Norm(pk)
    ensures PkRel(source, cols[m], target, pk) in PkMatchRels(target, pk, source, cols)
    decreases |cols|
  {
    if m < |cols| - 1 {
      PkMatchHas(target, pk, source, cols[..|cols| - 1], m);
    }
  }

  lemma {:induction false} PkSourcesHas(target: Table, pk: string, sources: seq<Table>, k: int, m: int)
    requires 0 <= k < |sources| && sources[k].name != target.name
    requires 0 <= m < |sources[k].columns| && Norm(sources[k].columns[m].name) == Norm(pk)
    ensures PkRel(sources[k], sources[k].columns[m], target, pk) in PkSourcesRels(target, pk, sources)
    decreases |sources|
  {
    if k < |sources| - 1 {
      PkSourcesHas(target, pk, sources[..|sources| - 1], k, m);
    } else {
      PkMatchHas(target, pk, sources[k], sources[k].columns, m);
    }
  }

  lemma {:induction false} PkListHas(target: Table, pks: seq<string>, all: seq<Table>, p: int, x: Relation)
    requires 0 <= p < |pks| && x in PkSourcesRels(target, pks[p], all)
    ensures x in PkListRels(target, pks, all)
    decreases |pks|
  {
    if p < |pks| - 1 {
      PkListHas(target, pks[..|pks| - 1], all, p, x);
    }
  }

  lemma {:induction false} PkPassHas(targets: seq<Table>, all: seq<Table>, i: int, x: Relation)
    requires 0 <= i < |targets| && x in PkListRels(targets[i], targets[i].pkColumns, all)
    ensures x in PkPassRels(targets, all)
    decreases |targets|
  {
    if i < |targets| - 1 {
      PkPassHas(targets[..|targets| - 1], all, i, x);
    }
  }

  /**
   * Pass 3: a column of another table named like a PK column (ignoring case)
   * yields a MEDIUM relation to it, score 0.55.
   */
  lemma {:induction false} InferPyCoversPkNames(tables: seq<Table>, i: int, p: int, k: int, m: int)
    requires 0 <= i < |tables| && 0 <= p < |tables[i].pkColumns|
    requires 0 <= k < |tables| && tables[k].name != tables[i].name
    requires 0 <= m < |tables[k].columns|
    requires Norm(tables[k].columns[m].name) == Norm(tables[i].pkColumns[p])
    ensures (tables[k].name, tables[k].columns[m].name, tables[i].name, tables[i].pkColumns[p], MEDIUM)
      in Keys(InferPy(tables))
  {
    var pk := tables[i].pkColumns[p];
    var x := PkRel(tables[k], tables[k].columns[m], tables[i], pk);
    PkSourcesHas(tables[i], pk, tables, k, m);
    PkListHas(tables[i], tables[i].pkColumns, tables, p, x);
    PkPassHas(tables, tables, i, x);
    assert x in Proposals(tables);
    InferPyKeepsFirst(tables);
    assert Key(x) == (tables[k].name, tables[k].columns[m].name, tables[i].name, pk, MEDIUM);
  }

  // ------------------------------------------------------------ the name rules

  /** What one rule relation says, whichever rule and whether the comment matched. */
  lemma {:induction false} RuleRelShape(lookup: Lookup, tableName: string, col: Column, target: string, rule: NameRule)
    ensures var r := RuleRel(lookup, tableName, col, target, rule);
      var hit := CommentHit(lookup, col, target);
      && r.sourceTable == tableName && r.sourceColumn == col.name
      && r.targetTable == target && r.targetColumn == TargetColumn(rule)
      && r.cardinality == ManyToOne
      && r.score == Some(BaseScore(rule) + (if hit then 10 else 0))
      && (rule == IdName ==> r.confidence == (if hit then FK else HIGH))
      && (rule == CodeName ==> r.confidence == MEDIUM)
      && (rule == NoName ==> r.confidence == (if hit then MEDIUM else LOW))
      && r.reason == Some(if hit then RuleLabel(rule) + " + " + COMMENT_LABEL else RuleLabel(rule))
  {
    var hit := CommentHit(lookup, col, target);
    var parts := Reasons(rule, hit);
    if hit {
      assert parts == [RuleLabel(rule), COMMENT_LABEL];
      assert parts[..1] == [RuleLabel(rule)];
      assert Join(parts, " + ") == Join(parts[..1], " + ") + " + " + COMMENT_LABEL;
    } else {
      assert parts == [RuleLabel(rule)];
    }
  }

  /** One relation per candidate table, in candidate order. */
  lemma {:induction false} RuleRelsTargets(lookup: Lookup, tableName: string, col: Column, targets: seq<string>, rule: NameRule)
    ensures |RuleRels(lookup, tableName, col, targets, rule)| == |targets|
    ensures forall k :: 0 <= k < |targets| ==>
      RuleRels(lookup, tableName, col, targets, rule)[k] == RuleRel(lookup, tableName, col, targets[k], rule)
    decreases |targets|
  {
    if |targets| > 0 {
      RuleRelsTargets(lookup, tableName, col, targets[..|targets| - 1], rule);
    }
  }

  /** The rule a column name selects; the three suffixes exclude each other. */
  function RuleFor(name: string): Option<NameRule> {
    if EndsWith(name, "_id") then Some(IdName)
    else if IsCodeName(name) then Some(CodeName)
    else if EndsWith(name, "_no") then Some(NoName)
    else None
  }

  /** The table-name stem each rule looks for. */
  function RuleBase(name: string, rule: NameRule): string
    requires |name| >= 3
  {
    if rule == CodeName then CodeBase(name) else name[..|name| - 3]
  }

  /**
   * At most one rule fires for a column: its relations go to the candidate
   * tables of that rule's stem, and a name with none of the suffixes yields none.
   */
  lemma {:induction false} ColumnRelsByRule(lookup: Lookup, tableName: string, col: Column)
    ensures var name := Norm(col.name);
      match RuleFor(name)
      case None => ColumnRels(lookup, tableName, col) == []
      case Some(rule) =>
        (|name| >= 3 && ColumnRels(lookup, tableName, col)
                        == RuleRels(lookup, tableName, col, CandidateTables(lookup.names, RuleBase(name, rule)), rule))
  {
    var name := Norm(col.name);
    SuffixesExclusive(name);
    var none: seq<Relation> := [];
    if EndsWith(name, "_id") {
      var rels := RuleRels(lookup, tableName, col, CandidateTables(lookup.names, name[..|name| - 3]), IdName);
      assert ColumnRels(lookup, tableName, col) == rels + none + none;
    } else if IsCodeName(name) {
      var rels := RuleRels(lookup, tableName, col, CandidateTables(lookup.names, CodeBase(name)), CodeName);
      assert ColumnRels(lookup, tableName, col) == none + rels + none;
    } else if EndsWith(name, "_no") {
      var rels := RuleRels(lookup, tableName, col, CandidateTables(lookup.names, name[..|name| - 3]), NoName);
      assert ColumnRels(lookup, tableName, col) == none + none + rels;
    }
  }

  /** `_id` excludes the other three suffixes, and `_cd`/`_code` exclude `_no`. */
  lemma {:induction false} SuffixesExclusive(name: string)
    ensures EndsWith(name, "_id") ==> !IsCodeName(name) && !EndsWith(name, "_no")
    ensures IsCodeName(name) ==> !EndsWith(name, "_no") && |name| >= 3
  {
    var n := |name|;
    if EndsWith(name, "_id") {
      assert name[n - 2] == 'i' && name[n - 1] == 'd';
      assert !EndsWith(name, "_cd") by { assert "_cd"[1] == 'c'; assert name[n - 3..][1] == name[n - 2]; }
      assert !EndsWith(name, "_code") by { assert "_code"[4] == 'e'; if |name| >= 5 { assert name[n - 5..][4] == name[n - 1]; } }
      assert !EndsWith(name, "_no") by { assert "_no"[2] == 'o'; assert name[n - 3..][2] == name[n - 1]; }
    } else if IsCodeName(name) {
      assert name[n - 1] == 'd' || name[n - 1] == 'e' by {
        if EndsWith(name, "_cd") { assert name[n - 3..][2] == name[n - 1]; }
        else { assert name[n - 5..][4] == name[n - 1]; }
      }
      assert !EndsWith(name, "_no") by { assert "_no"[2] == 'o'; assert name[n - 3..][2] == name[n - 1]; }
    }
  }

  // ------------------------------------------------------------ examples

  /** `_candidate_tables`: singular, plural and `rstrip('s')` spellings that exist. */
  lemma {:induction false} CandidateExamples()
    ensures CandidateTables({"user", "users"}, "user") == ["user", "users", "user"]
    ensures CandidateTables({"user"}, "users") == ["user"]
  {
    SpellingsOfUser();
    KeptOfUser();
    KeptOfUsers();
  }

  lemma {:induction false} KeptOfUser()
    ensures Kept({"user", "users"}, ["user", "users", "user"]) == ["user", "users", "user"]
  {
    var cs := ["user", "users", "user"];
    assert forall i :: 0 <= i < |cs| ==> cs[i] in {"user", "users"};
    KeptAll({"user", "users"}, cs);
  }

  /** Candidates that are all table names are all kept. */
  lemma {:induction false} KeptAll(names: set<string>, cs: seq<string>)
    requires forall i :: 0 <= i < |cs| ==> cs[i] in names
    ensures Kept(names, cs) == cs
  {
    if |cs| > 0 {
      var init := cs[..|cs| - 1];
      var last := cs[|cs| - 1];
      forall i | 0 <= i < |init| ensures init[i] in names {
        assert init[i] == cs[i];
      }
      KeptAll(names, init);
      assert last in names;
      assert Kept(names, cs) == Kept(names, init) + [last];
      assert init + [last] == cs;
    }
  }

  lemma {:induction false} KeptOfUsers()
    ensures Kept({"user"}, ["users", "userss", "user"]) == ["user"]
  {
    var one := {"user"};
    assert "users" !in one && "userss" !in one;
    KeptSnoc(one, [], "users");
    assert Kept(one, ["users"]) == [] by { assert [] + ["users"] == ["users"]; }
    KeptSnoc(one, ["users"], "userss");
    assert Kept(one, ["users", "userss"]) == [] by { assert ["users"] + ["userss"] == ["users", "userss"]; }
    KeptSnoc(one, ["users", "userss"], "user");
    assert ["users", "userss"] + ["user"] == ["users", "userss", "user"];
  }

  lemma {:induction false} SpellingsOfUser()
    ensures Spellings("user") == ["user", "users", "user"]
    ensures Spellings("users") == ["users", "userss", "user"]
  {
    assert "user" + "s" == "users" && "users" + "s" == "userss";
    assert RStrip("user", 's') == "user";
    assert "users"[..4] == "user";
    assert RStrip("users", 's') == "user";
  }

  /** `Kept` over one more candidate. */
  lemma {:induction false} KeptSnoc(names: set<string>, cs: seq<string>, c: string)
    ensures Kept(names, cs + [c]) == Kept(names, cs) + (if c in names then [c] else [])
  {
    assert (cs + [c])[..|cs|] == cs;
  }

  /** Python `replace` leaves a string without the pattern unchanged. */
  lemma {:induction false} RemoveAllAbsent(s: string, pat: string)
    requires |pat| > 0
    requires forall i :: !OccursAt(s, pat, i)
    ensures RemoveAll(s, pat) == s
    decreases |s|
  {
    if |s| > 0 {
      assert !StartsWith(s, pat) by {
        assert !OccursAt(s, pat, 0);
        if |pat| <= |s| { assert s[0..|pat|] == s[..|pat|]; }
      }
      forall i
        ensures !OccursAt(s[1..], pat, i)
      {
        assert !OccursAt(s, pat, i + 1);
        if 0 <= i <= |s[1..]| - |pat| {
          assert s[1..][i..i + |pat|] == s[i + 1..i + 1 + |pat|];
        }
      }
      RemoveAllAbsent(s[1..], pat);
      assert [s[0]] + s[1..] == s;
    }
  }

  /** The stem of `dept_cd` is `dept`. */
  lemma {:induction false} CodeBaseExample()
    ensures CodeBase("dept_cd") == "dept"
  {
    var s := "dept_cd";
    forall i
      ensures !OccursAt(s, "_code", i)
    {
      if 0 <= i <= 2 {
        assert s[i] != '_';
        assert s[i..i + 5][0] == s[i];
      }
    }
    RemoveAllAbsent(s, "_code");
    RemoveCdExample();
  }

  lemma {:induction false} RemoveCdExample()
    ensures RemoveAll("dept_cd", "_cd") == "dept"
  {
    assert StartsWith("_cd", "_cd") && "_cd"[3..] == "";
    assert RemoveAll("_cd", "_cd") == "";
    assert "t_cd"[..3][0] != "_cd"[0];
    assert "t_cd"[1..] == "_cd" && !StartsWith("t_cd", "_cd");
    assert RemoveAll("t_cd", "_cd") == "t";
    assert "pt_cd"[..3][0] != "_cd"[0];
    assert "pt_cd"[1..] == "t_cd" && !StartsWith("pt_cd", "_cd");
    assert RemoveAll("pt_cd", "_cd") == "pt";
    assert "ept_cd"[..3][0] != "_cd"[0];
    assert "ept_cd"[1..] == "pt_cd" && !StartsWith("ept_cd", "_cd");
    assert RemoveAll("ept_cd", "_cd") == "ept";
    assert "dept_cd"[..3][0] != "_cd"[0];
    assert "dept_cd"[1..] == "ept_cd" && !StartsWith("dept_cd", "_cd");
  }
}
