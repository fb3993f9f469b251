/**
 * The worker's metadata extraction (`metadata_service.py`): the compound
 * domain prefix, and the reshaping of the connector's raw column and
 * foreign-key rows into tables sorted by name with their totals.
 *
 * The connector's two queries are parameters (the rows they returned); the
 * clock is the `now` text.
 */
module MetadataService {
  import opened Wrappers
  import opened Text
  import opened Schema

  // ---------------------------------------------------------------- domains

  /**
   * `_infer_domain`: the first two segments when there are at least three
   * and both are at most four characters long, else the first segment when
   * there are two, else `ETC`; upper-cased.
   */
  function InferDomainPy(tableName: string): string {
    var parts := Split(ToLower(tableName), '_');
    if |parts| >= 3 && |parts[0]| <= 4 && |parts[1]| <= 4 then ToUpper(parts[0] + "_" + parts[1])
    else if |parts| >= 2 then ToUpper(parts[0])
    else "ETC"
  }

  /** The parts of a split: the text before the first `_`, then the split of the rest. */
  lemma {:induction false} SplitParts(s: string)
    ensures var k := IndexOf(s, '_');
      && (k < 0 ==> Split(s, '_') == [s])
      && (k >= 0 ==> Split(s, '_') == [s[..k]] + Split(s[k + 1..], '_'))
  {
  }

  lemma {:induction false} UpperLower(s: string)
    ensures ToUpper(ToLower(s)) == ToUpper(s)
  {
  }

  /** The split of a lower-cased name without `_`. */
  lemma {:induction false} SplitLowerNone(name: string)
    requires IndexOf(name, '_') < 0
    ensures Split(ToLower(name), '_') == [ToLower(name)]
  {
    IndexOfLower(name);
    SplitParts(ToLower(name));
  }

  /** The split of a lower-cased name at its first `_`, stated on the name. */
  lemma {:induction false} SplitLowerAt(name: string, k: int)
    requires k == IndexOf(name, '_') && k >= 0
    ensures Split(ToLower(name), '_') == [ToLower(name[..k])] + Split(ToLower(name[k + 1..]), '_')
  {
    IndexOfLower(name);
    LowerPrefix(name, k);
    LowerSuffix(name, k + 1);
    SplitFirst(ToLower(name), k, ToLower(name[..k]), ToLower(name[k + 1..]));
  }

  /** A split at the first `_`, with the two sides named. */
  lemma {:induction false} SplitFirst(s: string, k: int, head: string, tail: string)
    requires k == IndexOf(s, '_') && k >= 0 && s[..k] == head && s[k + 1..] == tail
    ensures Split(s, '_') == [head] + Split(tail, '_')
  {
  }

  lemma {:induction false} LowerPrefix(s: string, k: int)
    requires 0 <= k <= |s|
    ensures ToLower(s)[..k] == ToLower(s[..k])
  {
    var low := ToLower(s);
    forall i | 0 <= i < k ensures low[..k][i] == ToLower(s[..k])[i] {
      assert low[..k][i] == low[i] && s[..k][i] == s[i];
    }
  }

  lemma {:induction false} LowerSuffix(s: string, k: int)
    requires 0 <= k <= |s|
    ensures ToLower(s)[k..] == ToLower(s[k..])
  {
    var low := ToLower(s);
    forall i | 0 <= i < |s| - k ensures low[k..][i] == ToLower(s[k..])[i] {
      assert low[k..][i] == low[k + i] && s[k..][i] == s[k + i];
    }
  }

  /** A name without `_` is `ETC`. */
  lemma {:induction false} InferDomainPyNone(name: string)
    requires IndexOf(name, '_') < 0
    ensures InferDomainPy(name) == "ETC"
  {
    SplitLowerNone(name);
  }

  /** The first two parts of a name with two `_`. */
  lemma {:induction false} CompoundParts(name: string, k: int, k2: int)
    requires k == IndexOf(name, '_') && k >= 0
    requires k2 == IndexOf(name[k + 1..], '_') && k2 >= 0
    ensures var parts := Split(ToLower(name), '_');
      |parts| >= 3 && parts[0] == ToLower(name[..k]) && parts[1] == ToLower(name[k + 1..][..k2])
  {
    SplitLowerAt(name, k);
    SplitLowerAt(name[k + 1..], k2);
  }

  lemma {:induction false} JoinLower(a: string, b: string)
    ensures ToUpper(ToLower(a) + "_" + ToLower(b)) == ToUpper(a + "_" + b)
  {
    ToLowerAppend(a, "_" + b);
    ToLowerAppend("_", b);
    assert ToLower("_") == "_";
    UpperLower(a + "_" + b);
  }

  /** Two short leading parts out of at least three make the domain. */
  lemma {:induction false} DomainOfParts(name: string, a: string, b: string)
    requires |a| <= 4 && |b| <= 4
    requires var parts := Split(ToLower(name), '_');
      |parts| >= 3 && parts[0] == ToLower(a) && parts[1] == ToLower(b)
    ensures InferDomainPy(name) == ToUpper(ToLower(a) + "_" + ToLower(b))
  {
  }

  lemma {:induction false} PrefixOfTwo(name: string, k: int, k2: int)
    requires k == IndexOf(name, '_') && k >= 0
    requires k2 == IndexOf(name[k + 1..], '_') && k2 >= 0
    ensures name[..k + 1 + k2] == name[..k] + "_" + name[k + 1..][..k2]
  {
  }

  /**
   * With a second `_` after two segments of at most four characters, the
   * domain is the upper-cased name up to that second `_`.
   */
  lemma {:induction false} InferDomainPyCompound(name: string, k: int, k2: int)
    requires k == IndexOf(name, '_') && k >= 0
    requires k2 == IndexOf(name[k + 1..], '_') && k2 >= 0
    requires k <= 4 && k2 <= 4
    ensures InferDomainPy(name) == ToUpper(name[..k + 1 + k2])
  {
    var a, b := name[..k], name[k + 1..][..k2];
    CompoundParts(name, k, k2);
    DomainOfParts(name, a, b);
    JoinLower(a, b);
    PrefixOfTwo(name, k, k2);
  }

  /** Otherwise a name with `_` has the upper-cased text before its first `_` as domain. */
  lemma {:induction false} InferDomainPySimple(name: string, k: int)
    requires k == IndexOf(name, '_') && k >= 0
    requires !(k <= 4 && IndexOf(name[k + 1..], '_') >= 0 && IndexOf(name[k + 1..], '_') <= 4)
    ensures InferDomainPy(name) == ToUpper(name[..k])
  {
    var rest := name[k + 1..];
    var tail := Split(ToLower(rest), '_');
    SplitLowerAt(name, k);
    var k2 := IndexOf(rest, '_');
    if k2 >= 0 {
      SplitLowerAt(rest, k2);
      assert |tail| >= 2 && |tail[0]| == k2;
    } else {
      SplitLowerNone(rest);
      assert |tail| == 1;
    }
    SimpleDomain(name, ToLower(name[..k]), tail);
    UpperLower(name[..k]);
  }

  /** The domain of a name whose split does not start with two short parts. */
  lemma {:induction false} SimpleDomain(name: string, head: string, tail: seq<string>)
    requires Split(ToLower(name), '_') == [head] + tail && |tail| >= 1
    requires !(|tail| >= 2 && |head| <= 4 && |tail[0]| <= 4)
    ensures InferDomainPy(name) == ToUpper(head)
  {
  }

  /** The domain holds no lower-case letter. */
  lemma {:induction false} InferDomainPyUpper(tableName: string)
    ensures forall i :: 0 <= i < |InferDomainPy(tableName)| ==> !('a' <= InferDomainPy(tableName)[i] <= 'z')
  {
  }

  /** `r_indicatorinfo` has one short segment before a single `_`: domain `R`. */
  lemma {:induction false} InferDomainPySimpleExample()
    ensures InferDomainPy("r_indicatorinfo") == "R"
  {
    var name := "r_indicatorinfo";
    IndexOfAt(name, '_', 1);
    var rest := name[2..];
    assert rest == "indicatorinfo";
    IndexOfNone(rest, '_');
    InferDomainPySimple(name, 1);
    assert name[..1] == "r";
    UpperExample();
  }

  /** `st_tr_sales` has two short segments: domain `ST_TR`. */
  lemma {:induction false} InferDomainPyCompoundExample()
    ensures InferDomainPy("st_tr_sales") == "ST_TR"
  {
    var name := "st_tr_sales";
    CompoundSlices();
    IndexOfAt(name, '_', 2);
    IndexOfAt("tr_sales", '_', 2);
    InferDomainPyCompound(name, 2, 2);
    UpperExample();
  }

  lemma {:induction false} CompoundSlices()
    ensures "st_tr_sales"[3..] == "tr_sales" && "st_tr_sales"[..5] == "st_tr"
  {
    assert "st_tr_sales"[3..] == "tr_sales";
    assert "st_tr_sales"[..5] == "st_tr";
  }

  lemma {:induction false} UpperExample()
    ensures ToUpper("st_tr") == "ST_TR" && ToUpper("r") == "R"
  {
    assert ToUpper("st_tr") == "ST_TR";
  }

  // ---------------------------------------------------------------- raw rows

  /** One raw column row of the connector. */
  datatype ColumnRow = ColumnRow(
    tableName: string,
    tableComment: Option<string>,
    colNo: int,
    columnName: string,
    dataType: string,
    nullableYn: string,
    keyType: Option<string>,
    pkYn: string,
    defaultValue: Option<string>,
    extraInfo: Option<string>,
    columnComment: Option<string>)

  /** One raw foreign-key row of the connector. */
  datatype FkRow = FkRow(
    tableName: string,
    columnName: string,
    constraintName: string,
    referencedTableName: string,
    referencedColumnName: string,
    updateRule: Option<string>,
    deleteRule: Option<string>)

  function ColumnRowTable(r: ColumnRow): string { r.tableName }
  function FkRowTable(f: FkRow): string { f.tableName }

  /** `ColumnMeta(...)` of a row: absent texts become `''`. */
  function PyColumn(r: ColumnRow): (c: Column)
    ensures c.nullable <==> r.nullableYn == "Y"
    ensures c.isPk <==> r.pkYn == "Y"
  {
    Column(r.colNo, r.columnName, r.dataType, r.nullableYn == "Y", r.keyType.GetOr(""), r.pkYn == "Y",
      r.defaultValue, Some(r.extraInfo.GetOr("")), Some(r.columnComment.GetOr("")))
  }

  /** `row.get(rule) or 'NO ACTION'`. */
  function RuleOr(rule: Option<string>): (r: string)
    ensures r == "NO ACTION" <==> rule.None? || rule.value == "" || rule.value == "NO ACTION"
  {
    if rule.Some? && rule.value != "" then rule.value else "NO ACTION"
  }

  function PyFk(f: FkRow): FkRef {
    FkRef(f.columnName, f.constraintName, f.referencedTableName, f.referencedColumnName,
      Some(RuleOr(f.updateRule)), Some(RuleOr(f.deleteRule)))
  }

  /** The columns of the rows, in row order. */
  function PyColumns(rows: seq<ColumnRow>): seq<Column> {
    if |rows| == 0 then [] else PyColumns(rows[..|rows| - 1]) + [PyColumn(rows[|rows| - 1])]
  }

  /** The names of the rows marked `pk_yn = 'Y'`, in row order. */
  function PkRowNames(rows: seq<ColumnRow>): seq<string> {
    if |rows| == 0 then []
    else
      var last := rows[|rows| - 1];
      PkRowNames(rows[..|rows| - 1]) + (if last.pkYn == "Y" then [last.columnName] else [])
  }

  function PyFks(rows: seq<FkRow>): seq<FkRef> {
    if |rows| == 0 then [] else PyFks(rows[..|rows| - 1]) + [PyFk(rows[|rows| - 1])]
  }

  // ---------------------------------------------------------------- the tables dictionary

  /** The position of the table called `name`, or -1: the dictionary lookup. */
  function TableIndex(tables: seq<Table>, name: string): (k: int)
    ensures -1 <= k < |tables|
    ensures k >= 0 ==> tables[k].name == name
    ensures k < 0 ==> forall j :: 0 <= j < |tables| ==> tables[j].name != name
  {
    if |tables| == 0 then -1
    else if tables[0].name == name then 0
    else
      var k := TableIndex(tables[1..], name);
      if k < 0 then -1 else k + 1
  }

  /** The table a row creates when its table is new: comment and domain come from that row. */
  function NewTable(r: ColumnRow): Table {
    Table(r.tableName, Some(r.tableComment.GetOr("")), Some(InferDomainPy(r.tableName)), [], [], [])
  }

  /** Append the row's column, and its name to the key list when it is a key. */
  function AddColumn(t: Table, r: ColumnRow): Table {
    var c := PyColumn(r);
    t.(columns := t.columns + [c], pkColumns := if c.isPk then t.pkColumns + [c.name] else t.pkColumns)
  }

  /** One turn of the column loop. */
  function AddRow(tables: seq<Table>, r: ColumnRow): seq<Table> {
    var k := TableIndex(tables, r.tableName);
    if k < 0 then tables + [AddColumn(NewTable(r), r)] else tables[k := AddColumn(tables[k], r)]
  }

  /** The dictionary after the column loop over `rows`, in insertion order. */
  function Grouped(rows: seq<ColumnRow>): seq<Table> {
    if |rows| == 0 then [] else AddRow(Grouped(rows[..|rows| - 1]), rows[|rows| - 1])
  }

  /** One turn of the foreign-key loop: a row naming an unknown table is skipped. */
  function AttachFk(tables: seq<Table>, f: FkRow): (r: seq<Table>)
    ensures |r| == |tables|
  {
    var k := TableIndex(tables, f.tableName);
    if k < 0 then tables else tables[k := tables[k].(fkRefs := tables[k].fkRefs + [PyFk(f)])]
  }

  function AttachFks(tables: seq<Table>, fks: seq<FkRow>): (r: seq<Table>)
    ensures |r| == |tables|
  {
    if |fks| == 0 then tables else AttachFk(AttachFks(tables, fks[..|fks| - 1]), fks[|fks| - 1])
  }

  // ---------------------------------------------------------------- sorting by name

  predicate DistinctNames(s: seq<Table>) {
    forall a, b :: 0 <= a < b < |s| ==> s[a].name != s[b].name
  }

  /** Strictly ascending names. */
  predicate AscendingNames(s: seq<Table>) {
    forall a, b :: 0 <= a < b < |s| ==> Less(s[a].name, s[b].name)
  }

  function InsertTable(t: Table, s: seq<Table>): (r: seq<Table>)
    requires AscendingNames(s)
    requires forall j :: 0 <= j < |s| ==> s[j].name != t.name
    ensures multiset(r) == multiset(s) + multiset{t}
    ensures AscendingNames(r)
  {
    if |s| == 0 then [t]
    else if Less(t.name, s[0].name) then
      InsertFront(t, s);
      [t] + s
    else
      var u := InsertTable(t, s[1..]);
      InsertBehind(t, s, u);
      [s[0]] + u
  }

  lemma {:induction false} InsertFront(t: Table, s: seq<Table>)
    requires AscendingNames(s) && |s| > 0 && Less(t.name, s[0].name)
    ensures AscendingNames([t] + s)
  {
    forall j | 0 < j < |s| ensures Less(t.name, s[j].name) {
      LessTransitive(t.name, s[0].name, s[j].name);
    }
  }

  lemma {:induction false} InsertBehind(t: Table, s: seq<Table>, u: seq<Table>)
    requires AscendingNames(s) && |s| > 0 && !Less(t.name, s[0].name) && s[0].name != t.name
    requires multiset(u) == multiset(s[1..]) + multiset{t} && AscendingNames(u)
    ensures AscendingNames([s[0]] + u)
    ensures multiset([s[0]] + u) == multiset(s) + multiset{t}
  {
    LessTotal(t.name, s[0].name);
    assert s == [s[0]] + s[1..];
    forall j | 0 <= j < |u| ensures Less(s[0].name, u[j].name) {
      assert u[j] in multiset(u);
      if u[j] != t {
        assert u[j] in multiset(s[1..]);
        var i :| 0 <= i < |s[1..]| && s[1..][i] == u[j];
        assert s[i + 1] == u[j];
      }
    }
  }

  /** Inserting a table adds its columns and keys to the totals. */
  lemma {:induction false} InsertTotals(t: Table, s: seq<Table>)
    requires AscendingNames(s)
    requires forall j :: 0 <= j < |s| ==> s[j].name != t.name
    ensures ColumnTotal(InsertTable(t, s)) == ColumnTotal(s) + |t.columns|
    ensures FkTotal(InsertTable(t, s)) == FkTotal(s) + |t.fkRefs|
  {
    if |s| == 0 {
      TotalsCons(t, []);
    } else if Less(t.name, s[0].name) {
      TotalsCons(t, s);
    } else {
      InsertTotals(t, s[1..]);
      TotalsCons(s[0], InsertTable(t, s[1..]));
      TotalsCons(s[0], s[1..]);
      assert [s[0]] + s[1..] == s;
    }
  }

  /** `sorted(tables, key=lambda t: t.name)` on distinct names. */
  function SortTables(s: seq<Table>): (r: seq<Table>)
    requires DistinctNames(s)
    ensures multiset(r) == multiset(s)
    ensures AscendingNames(r)
  {
    if |s| == 0 then [] else
      var init, last := s[..|s| - 1], s[|s| - 1];
      assert s == init + [last];
      var sorted := SortTables(init);
      NotAmong(s, sorted);
      InsertTable(last, sorted)
  }

  /** The last table's name is not among the others, in whatever order they are. */
  lemma {:induction false} NotAmong(s: seq<Table>, others: seq<Table>)
    requires DistinctNames(s) && |s| > 0 && multiset(others) == multiset(s[..|s| - 1])
    ensures forall j :: 0 <= j < |others| ==> others[j].name != s[|s| - 1].name
  {
    var init := s[..|s| - 1];
    forall j | 0 <= j < |others| ensures others[j].name != s[|s| - 1].name {
      assert others[j] in multiset(init);
      var i :| 0 <= i < |init| && init[i] == others[j];
      assert init[i] == s[i];
    }
  }

  /** Sorting keeps the totals. */
  lemma {:induction false} SortTotals(s: seq<Table>)
    requires DistinctNames(s)
    ensures ColumnTotal(SortTables(s)) == ColumnTotal(s) && FkTotal(SortTables(s)) == FkTotal(s)
  {
    if |s| > 0 {
      var init, last := s[..|s| - 1], s[|s| - 1];
      SortTotals(init);
      var sorted := SortTables(init);
      NotAmong(s, sorted);
      assert SortTables(s) == InsertTable(last, sorted);
      InsertTotals(last, sorted);
    }
  }

  // ---------------------------------------------------------------- extraction

  /** The result `extract_metadata` builds from the two row lists. */
  function PyResult(schema: string, rawCols: seq<ColumnRow>, rawFks: seq<FkRow>, now: string): ExtractResult {
    GroupedSpec(rawCols);
    AttachNames(Grouped(rawCols), rawFks);
    var tableList := SortTables(AttachFks(Grouped(rawCols), rawFks));
    ExtractResult(schema, |tableList|, ColumnTotal(tableList), |rawFks|, tableList, now)
  }

  /**
   * `extract_metadata` after the connector call: the column loop fills the
   * tables dictionary, the foreign-key loop attaches keys to known tables,
   * and the tables are sorted by name and counted.
   */
  method ExtractMetadataPy(schema: string, rawCols: seq<ColumnRow>, rawFks: seq<FkRow>, now: string)
    returns (r: ExtractResult)
    ensures r == PyResult(schema, rawCols, rawFks, now)
  {
    var grouped := GroupColumnRows(rawCols);
    var tables := AttachFkRows(grouped, rawFks);
    assert DistinctNames(tables) by {
      GroupedSpec(rawCols);
      AttachNames(grouped, rawFks);
    }
    var tableList := SortTables(tables);
    var columnCount := ColumnTotal(tableList);
    r := ExtractResult(schema, |tableList|, columnCount, |rawFks|, tableList, now);
  }

  /** The column loop of `extract_metadata`: the tables dictionary, in insertion order. */
  method GroupColumnRows(rawCols: seq<ColumnRow>) returns (tables: seq<Table>)
    ensures tables == Grouped(rawCols)
  {
    tables := [];
    var i := 0;
    while i < |rawCols|
      invariant 0 <= i <= |rawCols|
      invariant tables == Grouped(rawCols[..i])
    {
      GroupedPrefix(rawCols, i);
      tables := AddRowIn(tables, rawCols[i]);
      i := i + 1;
    }
    assert rawCols[..|rawCols|] == rawCols;
  }

  /** One turn of the column loop: find or create the row's table, then append its column. */
  method AddRowIn(tables: seq<Table>, row: ColumnRow) returns (next: seq<Table>)
    ensures next == AddRow(tables, row)
  {
    next := tables;
    var k := TableIndex(next, row.tableName);
    if k < 0 {
      next := next + [NewTable(row)];
      k := |next| - 1;
    }
    ghost var mid := next;
    ColumnStep(tables, row, mid, k);
    var col := PyColumn(row);
    next := next[k := next[k].(columns := next[k].columns + [col])];
    if col.isPk {
      next := next[k := next[k].(pkColumns := next[k].pkColumns + [col.name])];
    }
    assert next == mid[k := AddColumn(mid[k], row)];
  }

  lemma {:induction false} GroupedPrefix(rows: seq<ColumnRow>, i: int)
    requires 0 <= i < |rows|
    ensures Grouped(rows[..i + 1]) == AddRow(Grouped(rows[..i]), rows[i])
  {
    assert rows[..i + 1][..i] == rows[..i];
  }

  /** The foreign-key loop of `extract_metadata`: a row naming an unknown table is skipped. */
  method AttachFkRows(grouped: seq<Table>, rawFks: seq<FkRow>) returns (tables: seq<Table>)
    ensures tables == AttachFks(grouped, rawFks)
  {
    tables := grouped;
    var j := 0;
    while j < |rawFks|
      invariant 0 <= j <= |rawFks|
      invariant tables == AttachFks(grouped, rawFks[..j])
    {
      var row := rawFks[j];
      var k := TableIndex(tables, row.tableName);
      ghost var before := tables;
      if k >= 0 {
        tables := tables[k := tables[k].(fkRefs := tables[k].fkRefs + [PyFk(row)])];
      }
      assert tables == AttachFk(before, row);
      assert rawFks[..j + 1][..j] == rawFks[..j];
      j := j + 1;
    }
    assert rawFks[..|rawFks|] == rawFks;
  }

  /** One turn of the column loop, once the row's table is in place at `k`, computes `AddRow`. */
  lemma {:induction false} ColumnStep(before: seq<Table>, row: ColumnRow, mid: seq<Table>, k: int)
    requires TableIndex(before, row.tableName) < 0 ==> mid == before + [NewTable(row)] && k == |before|
    requires TableIndex(before, row.tableName) >= 0 ==> mid == before && k == TableIndex(before, row.tableName)
    ensures 0 <= k < |mid| && mid[k := AddColumn(mid[k], row)] == AddRow(before, row)
  {
    if TableIndex(before, row.tableName) < 0 {
      ColumnStepNew(before, row, mid, k, AddColumn(mid[k], row));
    } else {
      ColumnStepOld(before, row, k, AddColumn(mid[k], row));
    }
  }

  /** A turn of the column loop on a new table name computes `AddRow`. */
  lemma {:induction false} ColumnStepNew(before: seq<Table>, row: ColumnRow, mid: seq<Table>, k: int, t: Table)
    requires TableIndex(before, row.tableName) < 0
    requires mid == before + [NewTable(row)] && k == |before|
    requires t == AddColumn(mid[k], row)
    ensures mid[k := t] == AddRow(before, row)
  {
  }

  /** A turn of the column loop on a known table name computes `AddRow`. */
  lemma {:induction false} ColumnStepOld(before: seq<Table>, row: ColumnRow, k: int, t: Table)
    requires k == TableIndex(before, row.tableName) && k >= 0
    requires t == AddColumn(before[k], row)
    ensures before[k := t] == AddRow(before, row)
  {
  }

  // ---------------------------------------------------------------- what the loops build

  /**
   * A table of the dictionary as the column rows of its name make it: its
   * columns and key names in row order, no foreign keys yet, and comment and
   * domain fixed by the first of those rows.
   */
  predicate FromRows(t: Table, rows: seq<ColumnRow>) {
    var mine := RowsFor(rows, ColumnRowTable, t.name);
    && |mine| > 0
    && t.columns == PyColumns(mine)
    && t.pkColumns == PkRowNames(mine)
    && t.fkRefs == []
    && t.comment == Some(mine[0].tableComment.GetOr(""))
    && t.domain == Some(InferDomainPy(t.name))
  }

  /**
   * What the column loop keeps: distinct names, every table built from the
   * rows of its name, and no rows for a name without a table.
   */
  ghost predicate GroupedInv(g: seq<Table>, rows: seq<ColumnRow>) {
    && DistinctNames(g)
    && (forall k :: 0 <= k < |g| ==> FromRows(g[k], rows))
    && (forall n :: TableIndex(g, n) < 0 ==> RowsFor(rows, ColumnRowTable, n) == [])
  }

  lemma {:induction false} GroupedSpec(rows: seq<ColumnRow>)
    ensures GroupedInv(Grouped(rows), rows)
  {
    if |rows| > 0 {
      GroupedSpec(rows[..|rows| - 1]);
      GroupedStep(Grouped(rows[..|rows| - 1]), rows);
    }
  }

  /** One turn of the column loop keeps `GroupedInv`. */
  lemma {:induction false} GroupedStep(g: seq<Table>, rows: seq<ColumnRow>)
    requires |rows| > 0 && GroupedInv(g, rows[..|rows| - 1])
    ensures GroupedInv(AddRow(g, rows[|rows| - 1]), rows)
  {
    var init, row := rows[..|rows| - 1], rows[|rows| - 1];
    assert init + [row] == rows;
    var g' := AddRow(g, row);
    forall j | 0 <= j < |g'| ensures FromRows(g'[j], init + [row]) {
      StepFromRows(g, init, row, j);
    }
    StepCovers(g, init, row);
  }

  lemma {:induction false} StepFromRows(g: seq<Table>, init: seq<ColumnRow>, row: ColumnRow, j: int)
    requires GroupedInv(g, init)
    requires 0 <= j < |AddRow(g, row)|
    ensures FromRows(AddRow(g, row)[j], init + [row])
  {
    var k := TableIndex(g, row.tableName);
    if k < 0 && j == |g| {
      FromRowsNew(init, row);
    } else if j == k {
      FromRowsAdd(g[k], init, row);
    } else {
      assert AddRow(g, row)[j] == g[j];
      FromRowsOther(g[j], init, row);
    }
  }

  lemma {:induction false} StepCovers(g: seq<Table>, init: seq<ColumnRow>, row: ColumnRow)
    requires GroupedInv(g, init)
    ensures DistinctNames(AddRow(g, row))
    ensures forall n :: TableIndex(AddRow(g, row), n) < 0 ==> RowsFor(init + [row], ColumnRowTable, n) == []
  {
    AddRowNames(g, row);
    var g' := AddRow(g, row);
    var k := TableIndex(g, row.tableName);
    var at := if k < 0 then |g| else k;
    forall n | TableIndex(g', n) < 0 ensures RowsFor(init + [row], ColumnRowTable, n) == [] {
      CoversName(g, init, row, n, at);
    }
  }

  /** The names after a turn of the column loop: the old ones in place, and the row's at `at`. */
  lemma {:induction false} AddRowNames(g: seq<Table>, row: ColumnRow)
    requires DistinctNames(g)
    ensures var g', k := AddRow(g, row), TableIndex(g, row.tableName);
      && |g'| == (if k < 0 then |g| + 1 else |g|)
      && (forall j :: 0 <= j < |g| ==> g'[j].name == g[j].name)
      && g'[if k < 0 then |g| else k].name == row.tableName
      && DistinctNames(g')
  {
  }

  /** A name still missing after the turn had no rows before it and is not the row's. */
  lemma {:induction false} CoversName(g: seq<Table>, init: seq<ColumnRow>, row: ColumnRow, n: string, at: int)
    requires forall m :: TableIndex(g, m) < 0 ==> RowsFor(init, ColumnRowTable, m) == []
    requires |g| <= at < |AddRow(g, row)| || 0 <= at < |g|
    requires forall j :: 0 <= j < |g| ==> AddRow(g, row)[j].name == g[j].name
    requires AddRow(g, row)[at].name == row.tableName
    requires TableIndex(AddRow(g, row), n) < 0
    ensures RowsFor(init + [row], ColumnRowTable, n) == []
  {
    var g' := AddRow(g, row);
    assert n != row.tableName;
    forall j | 0 <= j < |g| ensures g[j].name != n {
      assert g'[j].name == g[j].name;
    }
    RowsForSnoc(init, row, ColumnRowTable, n);
  }

  lemma {:induction false} FromRowsNew(init: seq<ColumnRow>, row: ColumnRow)
    requires RowsFor(init, ColumnRowTable, row.tableName) == []
    ensures FromRows(AddColumn(NewTable(row), row), init + [row])
  {
    RowsForSnoc(init, row, ColumnRowTable, row.tableName);
    assert [row][..0] == [];
  }

  lemma {:induction false} FromRowsAdd(t: Table, init: seq<ColumnRow>, row: ColumnRow)
    requires FromRows(t, init) && t.name == row.tableName
    ensures FromRows(AddColumn(t, row), init + [row])
  {
    RowsForSnoc(init, row, ColumnRowTable, row.tableName);
    var mine := RowsFor(init, ColumnRowTable, row.tableName);
    assert (mine + [row])[..|mine|] == mine;
  }

  lemma {:induction false} FromRowsOther(t: Table, init: seq<ColumnRow>, row: ColumnRow)
    requires FromRows(t, init) && t.name != row.tableName
    ensures FromRows(t, init + [row])
  {
    RowsForSnoc(init, row, ColumnRowTable, t.name);
    var mine := RowsFor(init, ColumnRowTable, t.name);
    assert mine + [] == mine;
  }

  /** The foreign-key loop keeps every table's name and columns. */
  lemma {:induction false} AttachNames(tables: seq<Table>, fks: seq<FkRow>)
    ensures |AttachFks(tables, fks)| == |tables|
    ensures forall k :: 0 <= k < |tables| ==>
      AttachFks(tables, fks)[k] == tables[k].(fkRefs := AttachFks(tables, fks)[k].fkRefs)
    ensures DistinctNames(tables) ==> DistinctNames(AttachFks(tables, fks))
  {
    if |fks| > 0 {
      AttachNames(tables, fks[..|fks| - 1]);
    }
  }

  /** With distinct names, a table receives exactly the foreign-key rows of its name, in row order. */
  lemma {:induction false} AttachSpec(tables: seq<Table>, fks: seq<FkRow>, k: int)
    requires DistinctNames(tables) && 0 <= k < |tables|
    ensures AttachFks(tables, fks)[k].fkRefs == tables[k].fkRefs + PyFks(RowsFor(fks, FkRowTable, tables[k].name))
  {
    if |fks| > 0 {
      var init, f := fks[..|fks| - 1], fks[|fks| - 1];
      AttachSpec(tables, init, k);
      AttachNames(tables, init);
      var a := AttachFks(tables, init);
      assert AttachFks(tables, fks) == AttachFk(a, f);
      var mine := RowsFor(init, FkRowTable, tables[k].name);
      if f.tableName == tables[k].name {
        AttachStepSame(a, f, k);
        assert RowsFor(fks, FkRowTable, tables[k].name) == mine + [f];
        PyFksSnoc(mine, f);
      } else {
        AttachStepOther(a, f, k);
        assert RowsFor(fks, FkRowTable, tables[k].name) == mine;
      }
    }
  }

  lemma {:induction false} PyFksSnoc(s: seq<FkRow>, f: FkRow)
    ensures PyFks(s + [f]) == PyFks(s) + [PyFk(f)]
  {
    assert (s + [f])[..|s|] == s;
  }

  lemma {:induction false} AttachStepSame(a: seq<Table>, f: FkRow, k: int)
    requires DistinctNames(a) && 0 <= k < |a| && a[k].name == f.tableName
    ensures AttachFk(a, f)[k] == a[k].(fkRefs := a[k].fkRefs + [PyFk(f)])
  {
  }

  lemma {:induction false} AttachStepOther(a: seq<Table>, f: FkRow, k: int)
    requires 0 <= k < |a| && a[k].name != f.tableName
    ensures AttachFk(a, f)[k] == a[k]
  {
  }

  /** The foreign-key rows of names with no column rows: the ones the loop skips. */
  function Skipped(rawCols: seq<ColumnRow>, fks: seq<FkRow>): nat {
    if |fks| == 0 then 0
    else
      var f := fks[|fks| - 1];
      Skipped(rawCols, fks[..|fks| - 1]) + (if RowsFor(rawCols, ColumnRowTable, f.tableName) == [] then 1 else 0)
  }

  /** Every row attaches one key or is skipped. */
  lemma {:induction false} AttachCount(rawCols: seq<ColumnRow>, fks: seq<FkRow>)
    ensures FkTotal(AttachFks(Grouped(rawCols), fks)) + Skipped(rawCols, fks) == |fks|
  {
    var g := Grouped(rawCols);
    GroupedSpec(rawCols);
    if |fks| == 0 {
      FkTotalNone(g);
    } else {
      var init := fks[..|fks| - 1];
      AttachCount(rawCols, init);
      AttachNames(g, init);
      var a := AttachFks(g, init);
      assert forall k :: 0 <= k < |g| ==> a[k].name == g[k].name;
      AttachOne(g, a, fks[|fks| - 1], rawCols);
    }
  }

  /** One more key adds one to the total exactly when its table has column rows. */
  lemma {:induction false} AttachOne(g: seq<Table>, a: seq<Table>, f: FkRow, rawCols: seq<ColumnRow>)
    requires GroupedInv(g, rawCols) && |a| == |g|
    requires forall k :: 0 <= k < |g| ==> a[k].name == g[k].name
    ensures FkTotal(AttachFk(a, f)) == FkTotal(a) + (if RowsFor(rawCols, ColumnRowTable, f.tableName) == [] then 0 else 1)
  {
    var i := TableIndex(a, f.tableName);
    if i >= 0 {
      TotalsUpdate(a, i, a[i].(fkRefs := a[i].fkRefs + [PyFk(f)]));
      assert g[i].name == f.tableName;
      assert FromRows(g[i], rawCols);
    } else {
      forall j | 0 <= j < |g| ensures g[j].name != f.tableName {
        assert a[j].name == g[j].name;
      }
      assert TableIndex(g, f.tableName) < 0;
    }
  }

  lemma {:induction false} FkTotalNone(tables: seq<Table>)
    requires forall k :: 0 <= k < |tables| ==> tables[k].fkRefs == []
    ensures FkTotal(tables) == 0
  {
    if |tables| > 0 {
      FkTotalNone(tables[..|tables| - 1]);
    }
  }

  /** Every column row lands in exactly one table, so the columns add up to the rows. */
  lemma {:induction false} GroupedColumnTotal(rows: seq<ColumnRow>)
    ensures ColumnTotal(Grouped(rows)) == |rows|
  {
    if |rows| > 0 {
      var init, row := rows[..|rows| - 1], rows[|rows| - 1];
      GroupedColumnTotal(init);
      var g := Grouped(init);
      var k := TableIndex(g, row.tableName);
      if k < 0 {
        TotalsAppend(g, AddColumn(NewTable(row), row));
      } else {
        TotalsUpdate(g, k, AddColumn(g[k], row));
      }
    }
  }

  lemma {:induction false} TotalsAppend(s: seq<Table>, t: Table)
    ensures ColumnTotal(s + [t]) == ColumnTotal(s) + |t.columns|
  {
    assert (s + [t])[..|s|] == s;
  }

  /** The foreign-key loop leaves the column total alone. */
  lemma {:induction false} AttachColumnTotal(tables: seq<Table>, fks: seq<FkRow>)
    ensures ColumnTotal(AttachFks(tables, fks)) == ColumnTotal(tables)
  {
    if |fks| > 0 {
      var init, f := fks[..|fks| - 1], fks[|fks| - 1];
      AttachColumnTotal(tables, init);
      var a := AttachFks(tables, init);
      var i := TableIndex(a, f.tableName);
      if i >= 0 {
        TotalsUpdate(a, i, a[i].(fkRefs := a[i].fkRefs + [PyFk(f)]));
      }
    }
  }

  // ---------------------------------------------------------------- the result

  /**
   * The counts: `table_count` is the number of tables, `column_count` the
   * number of column rows, and `fk_count` the number of raw foreign-key
   * rows, which is the number of attached keys plus the skipped rows.
   */
  lemma {:induction false} ResultCounts(schema: string, rawCols: seq<ColumnRow>, rawFks: seq<FkRow>, now: string)
    ensures var r := PyResult(schema, rawCols, rawFks, now);
      && r.tableCount == |r.tables|
      && r.columnCount == |rawCols| == ColumnTotal(r.tables)
      && r.fkCount == |rawFks| == FkTotal(r.tables) + Skipped(rawCols, rawFks)
      && (r.fkCount == FkTotal(r.tables) <==> Skipped(rawCols, rawFks) == 0)
  {
    GroupedSpec(rawCols);
    AttachNames(Grouped(rawCols), rawFks);
    SortTotals(AttachFks(Grouped(rawCols), rawFks));
    GroupedColumnTotal(rawCols);
    AttachColumnTotal(Grouped(rawCols), rawFks);
    AttachCount(rawCols, rawFks);
  }

  /** The tables come out in strictly ascending name order. */
  lemma {:induction false} ResultSorted(schema: string, rawCols: seq<ColumnRow>, rawFks: seq<FkRow>, now: string)
    ensures AscendingNames(PyResult(schema, rawCols, rawFks, now).tables)
  {
  }

  /**
   * Every table of the result is built from the column rows of its name
   * (columns and keys in row order, comment and domain from its first row)
   * and carries the foreign-key rows of its name in row order, with update
   * and delete rules defaulting to `NO ACTION`.
   */
  lemma {:induction false} ResultTable(schema: string, rawCols: seq<ColumnRow>, rawFks: seq<FkRow>, now: string, k: int)
    requires 0 <= k < |PyResult(schema, rawCols, rawFks, now).tables|
    ensures var t := PyResult(schema, rawCols, rawFks, now).tables[k];
      var mine := RowsFor(rawCols, ColumnRowTable, t.name);
      && |mine| > 0
      && t.columns == PyColumns(mine)
      && t.pkColumns == PkRowNames(mine)
      && t.comment == Some(mine[0].tableComment.GetOr(""))
      && t.domain == Some(InferDomainPy(t.name))
      && t.fkRefs == PyFks(RowsFor(rawFks, FkRowTable, t.name))
  {
    var g := Grouped(rawCols);
    GroupedSpec(rawCols);
    AttachNames(g, rawFks);
    var a := AttachFks(g, rawFks);
    var t := PyResult(schema, rawCols, rawFks, now).tables[k];
    assert t in multiset(a);
    var i :| 0 <= i < |a| && a[i] == t;
    AttachSpec(g, rawFks, i);
    assert FromRows(g[i], rawCols);
  }

  /** Every table named by a column row is in the result. */
  lemma {:induction false} ResultCovers(schema: string, rawCols: seq<ColumnRow>, rawFks: seq<FkRow>, now: string, row: ColumnRow)
    requires row in rawCols
    ensures exists k :: (0 <= k < |PyResult(schema, rawCols, rawFks, now).tables|
      && PyResult(schema, rawCols, rawFks, now).tables[k].name == row.tableName)
  {
    var g := Grouped(rawCols);
    GroupedSpec(rawCols);
    RowsForSpec(rawCols, ColumnRowTable, row.tableName);
    assert row in RowsFor(rawCols, ColumnRowTable, row.tableName);
    var i := TableIndex(g, row.tableName);
    AttachNames(g, rawFks);
    var a := AttachFks(g, rawFks);
    var r := PyResult(schema, rawCols, rawFks, now).tables;
    assert a[i] in multiset(r);
    var k :| 0 <= k < |r| && r[k] == a[i];
  }

  /** A column row's column: `nullable` iff `nullable_yn = 'Y'`, `is_pk` iff `pk_yn = 'Y'`. */
  lemma {:induction false} PyColumnsSpec(rows: seq<ColumnRow>, j: int)
    requires 0 <= j < |rows|
    ensures |PyColumns(rows)| == |rows|
    ensures PyColumns(rows)[j] == PyColumn(rows[j])
  {
    if j < |rows| - 1 {
      PyColumnsSpec(rows[..|rows| - 1], j);
    } else {
      PyColumnsLength(rows[..|rows| - 1]);
    }
  }

  lemma PyColumnsLength(rows: seq<ColumnRow>)
    ensures |PyColumns(rows)| == |rows|
  {
  }
}
