/**
 * `buildErdGraph`: the build result of a sync becomes the graph the front end
 * draws. Tables and columns are renamed field by field with defaults for the
 * missing texts; each relation gets an id made of its endpoints and its index.
 */
module ErdBuilder {
  import opened Wrappers
  import opened Text
  import opened Schema

  /** `src.col->tgt.col:idx`. */
  function RelationId(r: Relation, idx: nat): string {
    r.sourceTable + "." + r.sourceColumn + "->" + r.targetTable + "." + r.targetColumn + ":" + NatToString(idx)
  }

  function ToErdColumn(c: BuildColumn): ErdColumn {
    ErdColumn(c.name, c.dataType, c.nullable, c.isPk, c.isFk, c.comment.GetOr(""))
  }

  function ToErdTable(t: BuildTable): ErdTable {
    ErdTable(t.name, t.name, t.comment.GetOr(""), t.domain.GetOr("ETC"),
      seq(|t.columns|, j requires 0 <= j < |t.columns| => ToErdColumn(t.columns[j])))
  }

  /** The relation at index `idx`; the score is not carried over. */
  function ToErdRelation(r: Relation, idx: nat): ErdRelation {
    ErdRelation(RelationId(r, idx), r.sourceTable, r.sourceColumn, r.targetTable, r.targetColumn,
      r.confidence, r.cardinality, r.reason, r.evidence)
  }

  function BuildErdGraph(projectId: string, build: BuildResult): (g: ErdGraph)
    ensures g.projectId == projectId && g.extractedAt == build.extractedAt
    ensures |g.tables| == |build.tables| && |g.relations| == |build.relations|
  {
    ErdGraph(projectId,
      seq(|build.tables|, i requires 0 <= i < |build.tables| => ToErdTable(build.tables[i])),
      seq(|build.relations|, k requires 0 <= k < |build.relations| => ToErdRelation(build.relations[k], k)),
      build.extractedAt)
  }

  /**
   * Tables keep their order; a table's id and name are its name, a missing
   * comment is `""`, a missing domain `"ETC"`, and its columns keep their
   * order with every field carried over and a missing comment as `""`.
   */
  lemma {:induction false} BuildTablesSpec(projectId: string, build: BuildResult, i: int, j: int)
    requires 0 <= i < |build.tables| && 0 <= j < |build.tables[i].columns|
    ensures var t, u := build.tables[i], BuildErdGraph(projectId, build).tables[i];
      && u.id == t.name && u.name == t.name
      && (t.comment.None? ==> u.comment == "") && (t.comment.Some? ==> u.comment == t.comment.value)
      && (t.domain.None? ==> u.domain == "ETC") && (t.domain.Some? ==> u.domain == t.domain.value)
      && |u.columns| == |t.columns|
      && var c, e := t.columns[j], u.columns[j];
        && e.name == c.name && e.dataType == c.dataType && e.nullable == c.nullable
        && e.isPk == c.isPk && e.isFk == c.isFk
        && (c.comment.None? ==> e.comment == "") && (c.comment.Some? ==> e.comment == c.comment.value)
  {
  }

  /** Relations keep their order, endpoints, confidence, cardinality, reason and evidence. */
  lemma {:induction false} BuildRelationsSpec(projectId: string, build: BuildResult, k: int)
    requires 0 <= k < |build.relations|
    ensures var r, e := build.relations[k], BuildErdGraph(projectId, build).relations[k];
      && e.sourceTable == r.sourceTable && e.sourceColumn == r.sourceColumn
      && e.targetTable == r.targetTable && e.targetColumn == r.targetColumn
      && e.confidence == r.confidence && e.cardinality == r.cardinality
      && e.reason == r.reason && e.evidence == r.evidence
      && e.id == RelationId(r, k)
  {
  }

  /** The text after the last `:` of an id is its index, so the index can be read back. */
  lemma {:induction false} RelationIdIndex(r1: Relation, i1: nat, r2: Relation, i2: nat)
    requires RelationId(r1, i1) == RelationId(r2, i2)
    ensures i1 == i2
  {
    var d1, d2 := NatToString(i1), NatToString(i2);
    var s := RelationId(r1, i1);
    var p1 := r1.sourceTable + "." + r1.sourceColumn + "->" + r1.targetTable + "." + r1.targetColumn;
    var p2 := r2.sourceTable + "." + r2.sourceColumn + "->" + r2.targetTable + "." + r2.targetColumn;
    assert s == p1 + ":" + d1 && s == p2 + ":" + d2;
    if |d1| < |d2| {
      ColonBefore(p1, d1, p2, d2);
    } else if |d2| < |d1| {
      ColonBefore(p2, d2, p1, d1);
    }
    assert d1 == s[|s| - |d1|..] == d2;
    NatToStringInjective(i1, i2);
  }

  /** A digit string shorter than another cannot end the same text after a `:`. */
  lemma {:induction false} ColonBefore(p1: string, d1: string, p2: string, d2: string)
    requires p1 + ":" + d1 == p2 + ":" + d2 && |d1| < |d2|
    ensures exists i :: 0 <= i < |d2| && d2[i] == ':'
  {
    var s := p1 + ":" + d1;
    var at := |s| - |d1| - 1;
    assert s[at] == ':';
    assert d2[at - |p2| - 1] == s[at];
  }

  /** Relation ids are pairwise distinct. */
  lemma {:induction false} RelationIdsDistinct(projectId: string, build: BuildResult, j: int, k: int)
    requires 0 <= j < k < |build.relations|
    ensures BuildErdGraph(projectId, build).relations[j].id != BuildErdGraph(projectId, build).relations[k].id
  {
    var g := BuildErdGraph(projectId, build);
    if g.relations[j].id == g.relations[k].id {
      RelationIdIndex(build.relations[j], j, build.relations[k], k);
    }
  }

  /** `order_item.order_id->order.order_id:0`. */
  lemma {:induction false} RelationIdExample()
    ensures RelationId(Relation("order_item", "order_id", "order", "order_id", HIGH, ManyToOne,
                                None, None, Some(80)), 0)
         == "order_item.order_id->order.order_id:0"
  {
  }
}
