/**
 * The records exchanged by the pipeline: extracted schema metadata (tables,
 * columns, declared foreign keys), inferred relations, the intermediate build
 * result and the ERD graph the front end draws.
 */
module Schema {
  import opened Wrappers

  /** One column as the extractor reports it; absent optional fields are `None`. */
  datatype Column = Column(
    colNo: int,
    name: string,
    dataType: string,
    nullable: bool,
    keyType: string,
    isPk: bool,
    defaultValue: Option<string>,
    extra: Option<string>,
    comment: Option<string>)

  /** A declared foreign key of the table that holds it. */
  datatype FkRef = FkRef(
    columnName: string,
    constraintName: string,
    refTable: string,
    refColumn: string,
    updateRule: Option<string>,
    deleteRule: Option<string>)

  datatype Table = Table(
    name: string,
    comment: Option<string>,
    domain: Option<string>,
    columns: seq<Column>,
    pkColumns: seq<string>,
    fkRefs: seq<FkRef>)

  /** The columns a table's declared foreign keys name. */
  function FkColumns(t: Table): set<string> {
    set f | f in t.fkRefs :: f.columnName
  }

  /** The result of one extraction: the schema's tables and their totals. */
  datatype ExtractResult = ExtractResult(
    schemaName: string,
    tableCount: int,
    columnCount: int,
    fkCount: int,
    tables: seq<Table>,
    extractedAt: string)

  /** Certainty buckets, most certain first. */
  datatype Confidence = FK | HIGH | MEDIUM | LOW

  /** The rank of a bucket: FK 3, HIGH 2, MEDIUM 1, LOW 0. */
  function Rank(c: Confidence): nat {
    match c
    case FK => 3
    case HIGH => 2
    case MEDIUM => 1
    case LOW => 0
  }

  function ConfidenceText(c: Confidence): string {
    match c
    case FK => "FK"
    case HIGH => "HIGH"
    case MEDIUM => "MEDIUM"
    case LOW => "LOW"
  }

  datatype Cardinality = OneToOne | OneToMany | ManyToOne | ManyToMany

  /** The wire form of a cardinality: "1:1", "1:N", "N:1" or "N:M". */
  function CardinalityText(c: Cardinality): string {
    match c
    case OneToOne => "1:1"
    case OneToMany => "1:N"
    case ManyToOne => "N:1"
    case ManyToMany => "N:M"
  }

  /**
   * An inferred or declared relation between two columns. `score` is kept in
   * hundredths (1.0 is 100, 0.65 is 65).
   */
  datatype Relation = Relation(
    sourceTable: string,
    sourceColumn: string,
    targetTable: string,
    targetColumn: string,
    confidence: Confidence,
    cardinality: Cardinality,
    reason: Option<string>,
    evidence: Option<string>,
    score: Option<int>)

  /** Column of the build result handed to the graph builder. */
  datatype BuildColumn = BuildColumn(
    name: string,
    dataType: string,
    nullable: bool,
    isPk: bool,
    isFk: bool,
    comment: Option<string>)

  datatype BuildTable = BuildTable(
    name: string,
    comment: Option<string>,
    domain: Option<string>,
    columns: seq<BuildColumn>)

  datatype BuildResult = BuildResult(
    tables: seq<BuildTable>,
    relations: seq<Relation>,
    extractedAt: string)

  /** The graph the front end renders and the store keeps. */
  datatype ErdColumn = ErdColumn(
    name: string,
    dataType: string,
    nullable: bool,
    isPk: bool,
    isFk: bool,
    comment: string)

  datatype ErdTable = ErdTable(
    id: string,
    name: string,
    comment: string,
    domain: string,
    columns: seq<ErdColumn>)

  datatype ErdRelation = ErdRelation(
    id: string,
    sourceTable: string,
    sourceColumn: string,
    targetTable: string,
    targetColumn: string,
    confidence: Confidence,
    cardinality: Cardinality,
    reason: Option<string>,
    evidence: Option<string>)

  datatype ErdGraph = ErdGraph(
    projectId: string,
    tables: seq<ErdTable>,
    relations: seq<ErdRelation>,
    extractedAt: string)

  // ---------------------------------------------------------------- rows and totals

  /** The rows whose key is `k`, in row order. */
  function RowsFor<R>(rows: seq<R>, key: R -> string, k: string): seq<R> {
    if |rows| == 0 then []
    else RowsFor(rows[..|rows| - 1], key, k) + (if key(rows[|rows| - 1]) == k then [rows[|rows| - 1]] else [])
  }

  /** Every row with key `k` and no other. */
  lemma {:induction false} RowsForSpec<R>(rows: seq<R>, key: R -> string, k: string)
    ensures forall r :: r in RowsFor(rows, key, k) <==> r in rows && key(r) == k
  {
    if |rows| > 0 {
      RowsForSpec(rows[..|rows| - 1], key, k);
      assert rows == rows[..|rows| - 1] + [rows[|rows| - 1]];
    }
  }

  /** A row added at the end joins the rows of its key and no other. */
  lemma {:induction false} RowsForSnoc<R>(rows: seq<R>, r: R, key: R -> string, k: string)
    ensures RowsFor(rows + [r], key, k) == RowsFor(rows, key, k) + (if key(r) == k then [r] else [])
  {
    assert (rows + [r])[..|rows|] == rows;
  }

  /** The number of columns over all tables (`column_count`). */
  function ColumnTotal(tables: seq<Table>): nat {
    if |tables| == 0 then 0 else ColumnTotal(tables[..|tables| - 1]) + |tables[|tables| - 1].columns|
  }

  /** The number of declared foreign keys over all tables (`fk_count` on the server). */
  function FkTotal(tables: seq<Table>): nat {
    if |tables| == 0 then 0 else FkTotal(tables[..|tables| - 1]) + |tables[|tables| - 1].fkRefs|
  }

  /** Totals counted from the front give the same numbers. */
  lemma {:induction false} TotalsCons(t: Table, s: seq<Table>)
    ensures ColumnTotal([t] + s) == |t.columns| + ColumnTotal(s)
    ensures FkTotal([t] + s) == |t.fkRefs| + FkTotal(s)
  {
    if |s| > 0 {
      var init := s[..|s| - 1];
      assert ([t] + s)[..|s|] == [t] + init;
      TotalsCons(t, init);
    }
  }

  /** Replacing one table changes the totals by the difference in its columns and keys. */
  lemma {:induction false} TotalsUpdate(s: seq<Table>, k: int, t: Table)
    requires 0 <= k < |s|
    ensures ColumnTotal(s[k := t]) == ColumnTotal(s) - |s[k].columns| + |t.columns|
    ensures FkTotal(s[k := t]) == FkTotal(s) - |s[k].fkRefs| + |t.fkRefs|
  {
    var u := s[k := t];
    if k < |s| - 1 {
      assert u[..|s| - 1] == s[..|s| - 1][k := t];
      TotalsUpdate(s[..|s| - 1], k, t);
    } else {
      assert u[..|s| - 1] == s[..|s| - 1];
    }
  }
}
