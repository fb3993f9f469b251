/**
 * The server's own metadata extraction (`dbMetadata.ts`): the fixed domain
 * table, the translation of driver errors into user messages, the MSSQL
 * column-type text, the reshaping of the catalogue rows into tables with
 * their totals, and the dispatch on the database type.
 *
 * The driver calls themselves are parameters: a connection attempt is given
 * as the error it raised (or `None`), a query as the rows it returned, the
 * clock as the `now` text.
 */
module DbMetadata {
  import opened Wrappers
  import opened Text
  import opened Schema

  // ---------------------------------------------------------------- domains

  /** The fixed prefix table of `inferDomain`. */
  const DomainPrefixes: map<string, string> := map[
    "ord" := "ORDER", "order" := "ORDER",
    "usr" := "USER", "user" := "USER", "mem" := "USER",
    "prd" := "PRODUCT", "prod" := "PRODUCT", "item" := "PRODUCT",
    "pay" := "PAYMENT", "bill" := "PAYMENT",
    "shp" := "SHIPPING", "dlv" := "SHIPPING",
    "sys" := "SYSTEM", "cfg" := "SYSTEM", "conf" := "SYSTEM",
    "cd" := "CODE", "code" := "CODE", "cmn" := "CODE"]

  /** Every domain `inferDomain` can return. */
  const ServerDomains: set<string> :=
    {"ORDER", "USER", "PRODUCT", "PAYMENT", "SHIPPING", "SYSTEM", "CODE", "ETC"}

  /** `tableName.toLowerCase().split('_')[0]`. */
  function FirstSegment(tableName: string): string {
    Split(ToLower(tableName), '_')[0]
  }

  /**
   * `inferDomain` with the prefix table read as a dictionary of its own
   * entries: the domain is one of a fixed set of eight. (The code reads a
   * plain object, which also answers for inherited keys; see
   * `InferDomainAsWritten`.)
   */
  function InferDomain(tableName: string): (r: string)
    ensures r in ServerDomains
  {
    var first := FirstSegment(tableName);
    if first in DomainPrefixes then DomainPrefixes[first] else "ETC"
  }

  /** `ETC` exactly when the first segment is not in the prefix table. */
  lemma {:induction false} InferDomainEtc(tableName: string)
    ensures InferDomain(tableName) == "ETC" <==> FirstSegment(tableName) !in DomainPrefixes
  {
    var first := FirstSegment(tableName);
    if first in DomainPrefixes {
      assert DomainPrefixes[first] != "ETC";
    }
  }

  /** What reading a key of the prefix object gives: a domain text, or the function `Object.prototype.constructor`. */
  datatype DomainValue = DomainText(text: string) | ObjectConstructor

  /**
   * `MAP[first] ?? 'ETC'` as written. `MAP` is an object literal, so a key it
   * does not own is looked up on `Object.prototype`; of that prototype's keys
   * only `constructor` is lower-case and free of `_`, and its value, a
   * function, is not nullish.
   */
  function InferDomainAsWritten(tableName: string): (r: DomainValue)
    ensures r.ObjectConstructor? <==> FirstSegment(tableName) == "constructor"
    ensures r.DomainText? ==> r.text == InferDomain(tableName)
  {
    var first := FirstSegment(tableName);
    if first in DomainPrefixes then DomainText(DomainPrefixes[first])
    else if first == "constructor" then ObjectConstructor
    else DomainText("ETC")
  }

  /** A table named `constructor_log` gets a function for its domain, where an own-key lookup gives ETC. */
  lemma {:induction false} ConstructorDomainExample()
    ensures InferDomainAsWritten("constructor_log") == ObjectConstructor
    ensures InferDomain("constructor_log") == "ETC"
  {
    ConstructorSegment();
  }

  lemma {:induction false} ConstructorSegment()
    ensures FirstSegment("constructor_log") == "constructor"
  {
    var name := "constructor_log";
    assert name[..11] == "constructor";
    assert IndexOf(name, '_') == 11 by {
      IndexOfAt(name, '_', 11);
    }
    ConstructorLower();
    SegmentExample(name, "constructor");
  }

  /** The first segment is the lower-cased text before the first `_`, or the whole name. */
  lemma {:induction false} FirstSegmentSpec(tableName: string)
    ensures var k := IndexOf(tableName, '_');
      && (k < 0 ==> FirstSegment(tableName) == ToLower(tableName))
      && (k >= 0 ==> FirstSegment(tableName) == ToLower(tableName[..k]))
  {
    IndexOfLower(tableName);
    var k := IndexOf(tableName, '_');
    if k >= 0 {
      assert ToLower(tableName)[..k] == ToLower(tableName[..k]);
    }
  }

  /** Only the part before the first `_` decides the domain. */
  lemma {:induction false} InferDomainIgnoresRest(prefix: string, rest: string)
    requires '_' !in prefix
    ensures InferDomain(prefix + "_" + rest) == InferDomain(prefix)
  {
    var name := prefix + "_" + rest;
    assert IndexOf(prefix, '_') < 0;
    assert IndexOf(name, '_') == |prefix| by {
      assert name[|prefix|] == '_';
      assert forall j :: 0 <= j < |prefix| ==> name[j] == prefix[j];
    }
    FirstSegmentSpec(name);
    FirstSegmentSpec(prefix);
    assert name[..|prefix|] == prefix;
  }

  /** Upper-casing the name does not change its domain. */
  lemma {:induction false} InferDomainCase(tableName: string)
    ensures InferDomain(ToUpper(tableName)) == InferDomain(tableName)
  {
    assert ToLower(ToUpper(tableName)) == ToLower(tableName);
  }

  /** `order` names the ORDER domain. */
  lemma {:induction false} InferDomainOrder()
    ensures InferDomain("order") == "ORDER"
  {
    IndexOfNone("order", '_');
    LowerFixed("order");
    SegmentExample("order", "order");
  }

  /** `cmn_x`: only `cmn` is looked up. */
  lemma {:induction false} InferDomainCodePrefix()
    ensures InferDomain("cmn_x") == "CODE"
  {
    IndexOfAt("cmn_x", '_', 3);
    assert "cmn_x"[..3] == "cmn";
    LowerFixed("cmn");
    SegmentExample("cmn_x", "cmn");
  }

  /** `orders` is not in the prefix table, so it is ETC. */
  lemma {:induction false} InferDomainUnknownPrefix()
    ensures InferDomain("orders") == "ETC"
  {
    IndexOfNone("orders", '_');
    LowerFixed("orders");
    SegmentExample("orders", "orders");
    assert "orders" !in DomainPrefixes;
  }

  lemma {:induction false} SegmentExample(name: string, first: string)
    requires (IndexOf(name, '_') < 0 && ToLower(name) == first)
          || (IndexOf(name, '_') >= 0 && ToLower(name[..IndexOf(name, '_')]) == first)
    ensures FirstSegment(name) == first
  {
    FirstSegmentSpec(name);
  }

  // ---------------------------------------------------------------- driver errors

  /** What a driver error carries: its `code`, `message`, MSSQL `number` and `address`. */
  datatype DbError = DbError(
    code: Option<string>,
    message: Option<string>,
    number: Option<int>,
    address: Option<string>)

  /** The messages `translateDbError` can produce, by kind. */
  datatype ErrorMessage =
    | TimeoutMessage(address: string)
    | RefusedMessage
    | HostNotFoundMessage
    | AuthFailedMessage
    | NoDatabaseMessage
    | RawMessage(text: string)
    | UnknownErrorMessage

  /** `translateDbError`: the first matching case in a fixed order, else the raw message. */
  function TranslateDbError(e: DbError): (r: ErrorMessage)
    ensures r.RawMessage? ==> r.text != "" && e.message == Some(r.text)
  {
    var msg := e.message.GetOr("");
    var code := e.code.GetOr("");
    if code == "ETIMEDOUT" || Contains(msg, "ETIMEDOUT") then TimeoutMessage(e.address.GetOr(""))
    else if code == "ECONNREFUSED" || Contains(msg, "ECONNREFUSED") then RefusedMessage
    else if code == "ENOTFOUND" || Contains(msg, "ENOTFOUND") then HostNotFoundMessage
    else if code == "ER_ACCESS_DENIED_ERROR" || Contains(msg, "Access denied") then AuthFailedMessage
    else if code == "ER_BAD_DB_ERROR" || Contains(msg, "Unknown database") then NoDatabaseMessage
    else if e.number == Some(18456) then AuthFailedMessage
    else if e.number == Some(4060) then NoDatabaseMessage
    else if msg != "" then RawMessage(msg)
    else UnknownErrorMessage
  }

  /** The recognised error cases, one per test. */
  datatype ErrorRule = TimedOut | Refused | HostNotFound | AccessDenied | BadDatabase
                     | MssqlLoginFailed | MssqlNoDatabase

  /** The order in which the cases are tried. */
  const Priority: seq<ErrorRule> :=
    [TimedOut, Refused, HostNotFound, AccessDenied, BadDatabase, MssqlLoginFailed, MssqlNoDatabase]

  /** Whether an error matches a case, by its code, a marker in its message, or its MSSQL number. */
  predicate Fires(e: DbError, rule: ErrorRule) {
    var msg, code := e.message.GetOr(""), e.code.GetOr("");
    match rule
    case TimedOut => code == "ETIMEDOUT" || Contains(msg, "ETIMEDOUT")
    case Refused => code == "ECONNREFUSED" || Contains(msg, "ECONNREFUSED")
    case HostNotFound => code == "ENOTFOUND" || Contains(msg, "ENOTFOUND")
    case AccessDenied => code == "ER_ACCESS_DENIED_ERROR" || Contains(msg, "Access denied")
    case BadDatabase => code == "ER_BAD_DB_ERROR" || Contains(msg, "Unknown database")
    case MssqlLoginFailed => e.number == Some(18456)
    case MssqlNoDatabase => e.number == Some(4060)
  }

  /** The message of a case: both login failures and both missing-database cases share one text. */
  function RuleMessage(rule: ErrorRule, e: DbError): ErrorMessage {
    match rule
    case TimedOut => TimeoutMessage(e.address.GetOr(""))
    case Refused => RefusedMessage
    case HostNotFound => HostNotFoundMessage
    case AccessDenied => AuthFailedMessage
    case BadDatabase => NoDatabaseMessage
    case MssqlLoginFailed => AuthFailedMessage
    case MssqlNoDatabase => NoDatabaseMessage
  }

  /** The index of the first case in `rules` that `e` matches, or -1. */
  function FirstFiring(e: DbError, rules: seq<ErrorRule>): (k: int)
    ensures -1 <= k < |rules|
    ensures k >= 0 ==> Fires(e, rules[k]) && forall j :: 0 <= j < k ==> !Fires(e, rules[j])
    ensures k < 0 ==> forall j :: 0 <= j < |rules| ==> !Fires(e, rules[j])
  {
    if |rules| == 0 then -1
    else if Fires(e, rules[0]) then 0
    else
      var k := FirstFiring(e, rules[1..]);
      if k < 0 then -1 else k + 1
  }

  /**
   * The translation is the message of the first matching case in priority
   * order; with no match it is the raw message, or the default text when
   * that is empty.
   */
  lemma {:induction false} TranslateByPriority(e: DbError)
    ensures var k := FirstFiring(e, Priority);
      && (k >= 0 ==> TranslateDbError(e) == RuleMessage(Priority[k], e))
      && (k < 0 && e.message.GetOr("") != "" ==> TranslateDbError(e) == RawMessage(e.message.GetOr("")))
      && (k < 0 && e.message.GetOr("") == "" ==> TranslateDbError(e) == UnknownErrorMessage)
  {
    var k := FirstFiring(e, Priority);
    assert Priority[0] == TimedOut && Priority[1] == Refused && Priority[2] == HostNotFound;
    assert Priority[3] == AccessDenied && Priority[4] == BadDatabase;
    assert Priority[5] == MssqlLoginFailed && Priority[6] == MssqlNoDatabase;
  }

  /** A time-out in code or message wins over every other case. */
  lemma {:induction false} TimeoutWins(e: DbError)
    requires e.code == Some("ETIMEDOUT")
    ensures TranslateDbError(e) == TimeoutMessage(e.address.GetOr(""))
  {
  }

  /** The translation is never an empty raw text. */
  lemma {:induction false} TranslateNeverEmpty(e: DbError)
    ensures TranslateDbError(e) != RawMessage("")
  {
  }

  // ---------------------------------------------------------------- MSSQL column types

  /** One row of the MSSQL column query. */
  datatype MssqlColumnRow = MssqlColumnRow(
    tableName: string,
    ordinal: int,
    columnName: string,
    dataType: string,
    maxLength: int,
    precision: int,
    scale: int,
    isNullable: bool,
    isIdentity: bool,
    comment: Option<string>,
    defaultValue: Option<string>)

  /** The decimal text of a natural number halved, as JavaScript writes `m / 2`. */
  function HalfNat(m: nat): string {
    NatToString(m / 2) + (if m % 2 == 1 then ".5" else "")
  }

  /** `${n / 2}` for any integer `n`. */
  function HalfText(n: int): string {
    if n < 0 then "-" + HalfNat(-n) else HalfNat(n)
  }

  const CharTypes: seq<string> := ["varchar", "nvarchar", "char", "nchar"]
  const DecimalTypes: seq<string> := ["decimal", "numeric"]

  /** The length shown for a character type: `MAX` for -1, half the bytes for the `n` types. */
  function LengthText(c: MssqlColumnRow): string {
    if c.maxLength == -1 then "MAX"
    else if StartsWith(c.dataType, "n") then HalfText(c.maxLength)
    else IntToString(c.maxLength)
  }

  /** `colTypeStr`: the type name, with its length or precision and scale where the type has them. */
  function ColTypeStr(c: MssqlColumnRow): (r: string)
    ensures StartsWith(r, c.dataType)
  {
    var base := c.dataType;
    if base in CharTypes then base + "(" + LengthText(c) + ")"
    else if base in DecimalTypes then base + "(" + IntToString(c.precision) + "," + IntToString(c.scale) + ")"
    else base
  }

  /** The bare name is returned exactly for the types that carry neither length nor precision. */
  lemma {:induction false} ColTypeBare(c: MssqlColumnRow)
    ensures ColTypeStr(c) == c.dataType <==> c.dataType !in CharTypes && c.dataType !in DecimalTypes
  {
    if c.dataType in CharTypes || c.dataType in DecimalTypes {
      assert |ColTypeStr(c)| > |c.dataType|;
    }
  }

  lemma {:induction false} ColTypeMax(c: MssqlColumnRow)
    requires c.dataType in CharTypes && c.maxLength == -1
    ensures ColTypeStr(c) == c.dataType + "(MAX)"
  {
  }

  /** A national type of an even byte length shows half of it. */
  lemma {:induction false} ColTypeNational(c: MssqlColumnRow, chars: nat)
    requires c.dataType in ["nvarchar", "nchar"] && c.maxLength == 2 * chars
    ensures ColTypeStr(c) == c.dataType + "(" + NatToString(chars) + ")"
  {
    assert StartsWith(c.dataType, "n");
  }

  /** A plain character type shows its byte length unchanged. */
  lemma {:induction false} ColTypePlain(c: MssqlColumnRow, len: nat)
    requires c.dataType in ["varchar", "char"] && c.maxLength == len
    ensures ColTypeStr(c) == c.dataType + "(" + NatToString(len) + ")"
  {
    assert c.dataType[0] != 'n';
  }

  lemma {:induction false} ColTypeExamples()
    ensures ColTypeStr(MssqlColumnRow("t", 1, "c", "nvarchar", 100, 0, 0, true, false, None, None)) == "nvarchar(50)"
    ensures ColTypeStr(MssqlColumnRow("t", 1, "c", "decimal", 9, 18, 2, true, false, None, None)) == "decimal(18,2)"
    ensures ColTypeStr(MssqlColumnRow("t", 1, "c", "int", 4, 10, 0, true, false, None, None)) == "int"
  {
    NationalExample();
    DecimalExample();
    assert "int" !in CharTypes && "int" !in DecimalTypes;
  }

  lemma {:induction false} NationalExample()
    ensures ColTypeStr(MssqlColumnRow("t", 1, "c", "nvarchar", 100, 0, 0, true, false, None, None)) == "nvarchar(50)"
  {
    var c := MssqlColumnRow("t", 1, "c", "nvarchar", 100, 0, 0, true, false, None, None);
    assert "nvarchar" in CharTypes;
    assert NatToString(50) == "50";
    assert LengthText(c) == "50";
  }

  lemma {:induction false} DecimalExample()
    ensures ColTypeStr(MssqlColumnRow("t", 1, "c", "decimal", 9, 18, 2, true, false, None, None)) == "decimal(18,2)"
  {
    assert "decimal" !in CharTypes && "decimal" in DecimalTypes;
    assert IntToString(18) == "18" && IntToString(2) == "2";
  }

  // ---------------------------------------------------------------- grouping rows by table

  /** `map.get(k) ?? []`. */
  function Get<R>(m: map<string, seq<R>>, k: string): seq<R> {
    if k in m then m[k] else []
  }

  /** The `colMap`/`fkMap`/`pkMap` loops: each key gets its rows in row order. */
  method GroupBy<R>(rows: seq<R>, key: R -> string) returns (m: map<string, seq<R>>)
    ensures forall k :: Get(m, k) == RowsFor(rows, key, k)
  {
    m := map[];
    var i := 0;
    while i < |rows|
      invariant 0 <= i <= |rows|
      invariant forall k :: Get(m, k) == RowsFor(rows[..i], key, k)
    {
      ghost var before := m;
      var k := key(rows[i]);
      if k !in m {
        m := m[k := []];
      }
      m := m[k := m[k] + [rows[i]]];
      GroupStep(before, m, rows, key, i);
      i := i + 1;
    }
    assert rows[..|rows|] == rows;
  }

  /** One turn of the grouping loop: the row is appended to its key's list. */
  lemma {:induction false} GroupStep<R>(before: map<string, seq<R>>, m: map<string, seq<R>>, rows: seq<R>, key: R -> string, i: int)
    requires 0 <= i < |rows|
    requires forall k :: Get(before, k) == RowsFor(rows[..i], key, k)
    requires m == before[key(rows[i]) := Get(before, key(rows[i])) + [rows[i]]]
    ensures forall k :: Get(m, k) == RowsFor(rows[..i + 1], key, k)
  {
    assert rows[..i + 1][..i] == rows[..i];
  }

  /** The number of rows whose key is one of `keys`. */
  function CountIn<R>(rows: seq<R>, key: R -> string, keys: seq<string>): nat {
    if |rows| == 0 then 0
    else CountIn(rows[..|rows| - 1], key, keys) + (if key(rows[|rows| - 1]) in keys then 1 else 0)
  }

  lemma {:induction false} CountInAdd<R>(rows: seq<R>, key: R -> string, keys: seq<string>, k: string)
    requires k !in keys
    ensures CountIn(rows, key, keys + [k]) == CountIn(rows, key, keys) + |RowsFor(rows, key, k)|
  {
    if |rows| > 0 {
      CountInAdd(rows[..|rows| - 1], key, keys, k);
    }
  }

  lemma {:induction false} CountInAll<R>(rows: seq<R>, key: R -> string, keys: seq<string>)
    requires forall r :: r in rows ==> key(r) in keys
    ensures CountIn(rows, key, keys) == |rows|
  {
    if |rows| > 0 {
      var init := rows[..|rows| - 1];
      assert forall r :: r in init ==> r in rows;
      CountInAll(init, key, keys);
    }
  }

  /** Names in order of first appearance: `[...new Set(names)]`. */
  function Dedup(s: seq<string>): (r: seq<string>)
    ensures forall x :: x in r <==> x in s
    ensures forall i, j :: 0 <= i < j < |r| ==> r[i] != r[j]
  {
    if |s| == 0 then []
    else
      var d := Dedup(s[..|s| - 1]);
      assert forall x :: x in s <==> x in s[..|s| - 1] || x == s[|s| - 1] by {
        assert s == s[..|s| - 1] + [s[|s| - 1]];
      }
      if s[|s| - 1] in d then d else d + [s[|s| - 1]]
  }

  // ---------------------------------------------------------------- rows to tables

  /** One row of the table query. */
  datatype TableRow = TableRow(name: string, comment: Option<string>)

  /** One row of the MySQL column query. */
  datatype MysqlColumnRow = MysqlColumnRow(
    tableName: string,
    ordinal: Option<int>,
    columnName: string,
    columnType: Option<string>,
    dataType: string,
    isNullable: string,
    columnKey: Option<string>,
    defaultValue: Option<string>,
    extra: Option<string>,
    comment: Option<string>)

  /** One row of a foreign-key query. */
  datatype FkRow = FkRow(
    tableName: string,
    columnName: string,
    constraintName: string,
    refTable: string,
    refColumn: string,
    updateRule: Option<string>,
    deleteRule: Option<string>)

  /** One row of the MSSQL primary-key query. */
  datatype PkRow = PkRow(tableName: string, columnName: string)

  function MysqlRowTable(c: MysqlColumnRow): string { c.tableName }
  function MssqlRowTable(c: MssqlColumnRow): string { c.tableName }
  function FkRowTable(f: FkRow): string { f.tableName }
  function PkRowTable(p: PkRow): string { p.tableName }

  /** `text || undefined`: a missing or empty text is absent. */
  function NonEmpty(s: Option<string>): (r: Option<string>)
    ensures r.None? <==> s.None? || s.value == ""
    ensures r.Some? ==> r == s
  {
    if s.Some? && s.value != "" then s else None
  }

  function FkOf(f: FkRow): FkRef {
    FkRef(f.columnName, f.constraintName, f.refTable, f.refColumn, NonEmpty(f.updateRule), NonEmpty(f.deleteRule))
  }

  function FkRefsOf(fks: seq<FkRow>): seq<FkRef> {
    seq(|fks|, j requires 0 <= j < |fks| => FkOf(fks[j]))
  }

  /** The `i`-th column of a MySQL table; a missing ordinal is the 1-based position. */
  function MysqlColumn(c: MysqlColumnRow, i: int): Column {
    Column(c.ordinal.GetOr(i + 1), c.columnName, c.columnType.GetOr(c.dataType),
      c.isNullable == "YES", c.columnKey.GetOr(""), c.columnKey == Some("PRI"),
      c.defaultValue, NonEmpty(c.extra), NonEmpty(c.comment))
  }

  function MysqlColumns(cols: seq<MysqlColumnRow>): seq<Column> {
    seq(|cols|, i requires 0 <= i < |cols| => MysqlColumn(cols[i], i))
  }

  /** The names of the rows whose key is `PRI`, in row order. */
  function PriRowNames(cols: seq<MysqlColumnRow>): seq<string> {
    if |cols| == 0 then []
    else
      var last := cols[|cols| - 1];
      PriRowNames(cols[..|cols| - 1]) + (if last.columnKey == Some("PRI") then [last.columnName] else [])
  }

  /** The names of the primary-key columns of a table, in column order. */
  function PkNames(cols: seq<Column>): seq<string> {
    if |cols| == 0 then []
    else PkNames(cols[..|cols| - 1]) + (if cols[|cols| - 1].isPk then [cols[|cols| - 1].name] else [])
  }

  function MysqlTable(t: TableRow, cols: seq<MysqlColumnRow>, fks: seq<FkRow>): Table {
    Table(t.name, NonEmpty(t.comment), Some(InferDomain(t.name)), MysqlColumns(cols), PriRowNames(cols), FkRefsOf(fks))
  }

  /** `table_count`, `column_count` and `fk_count` beside the tables. */
  function WithTotals(db: string, tables: seq<Table>, now: string): ExtractResult {
    ExtractResult(db, |tables|, ColumnTotal(tables), FkTotal(tables), tables, now)
  }

  /** The MySQL extraction after its three queries. */
  function MysqlResult(db: string, tRows: seq<TableRow>, cRows: seq<MysqlColumnRow>, fRows: seq<FkRow>,
                       now: string): ExtractResult
  {
    WithTotals(db, seq(|tRows|, i requires 0 <= i < |tRows| =>
      MysqlTable(tRows[i], RowsFor(cRows, MysqlRowTable, tRows[i].name), RowsFor(fRows, FkRowTable, tRows[i].name))), now)
  }

  /**
   * `extractMysql` after the driver: a failed connection is reported as its
   * translated message; otherwise the rows are grouped per table and
   * reshaped.
   */
  method ExtractMysql(db: string, connectError: Option<DbError>, tRows: seq<TableRow>,
                      cRows: seq<MysqlColumnRow>, fRows: seq<FkRow>, now: string)
    returns (r: Result<ExtractResult, ErrorMessage>)
    ensures connectError.Some? ==> r == Err(TranslateDbError(connectError.value))
    ensures connectError.None? ==> r == Ok(MysqlResult(db, tRows, cRows, fRows, now))
  {
    if connectError.Some? {
      return Err(TranslateDbError(connectError.value));
    }
    var colMap := GroupBy(cRows, MysqlRowTable);
    var fkMap := GroupBy(fRows, FkRowTable);
    var tables := seq(|tRows|, i requires 0 <= i < |tRows| =>
      MysqlTable(tRows[i], Get(colMap, tRows[i].name), Get(fkMap, tRows[i].name)));
    assert tables == MysqlResult(db, tRows, cRows, fRows, now).tables;
    r := Ok(WithTotals(db, tables, now));
  }

  /** `is_pk` is the `PRI` key, and `pk_columns` lists exactly those columns in column order. */
  lemma {:induction false} MysqlPkColumns(cols: seq<MysqlColumnRow>)
    ensures PriRowNames(cols) == PkNames(MysqlColumns(cols))
    ensures forall j :: 0 <= j < |cols| ==> (MysqlColumns(cols)[j].isPk <==> MysqlColumns(cols)[j].keyType == "PRI")
  {
    if |cols| > 0 {
      var init := cols[..|cols| - 1];
      assert MysqlColumns(cols)[..|cols| - 1] == MysqlColumns(init);
      MysqlPkColumns(init);
    }
  }

  /** A primary-key name is the name of a column marked as key, and every such column is listed. */
  lemma {:induction false} PkNamesSpec(cols: seq<Column>)
    ensures forall x :: x in PkNames(cols) <==> exists j :: 0 <= j < |cols| && cols[j].isPk && cols[j].name == x
  {
    if |cols| > 0 {
      var init := cols[..|cols| - 1];
      PkNamesSpec(init);
      forall x | x in PkNames(cols)
        ensures exists j :: 0 <= j < |cols| && cols[j].isPk && cols[j].name == x
      {
        if x in PkNames(init) {
          var j :| 0 <= j < |init| && init[j].isPk && init[j].name == x;
          assert cols[j] == init[j];
        } else {
          assert cols[|cols| - 1].isPk && cols[|cols| - 1].name == x;
        }
      }
      forall x | exists j :: 0 <= j < |cols| && cols[j].isPk && cols[j].name == x
        ensures x in PkNames(cols)
      {
        var j :| 0 <= j < |cols| && cols[j].isPk && cols[j].name == x;
        if j < |cols| - 1 {
          assert init[j] == cols[j];
        }
      }
    }
  }

  /**
   * Table `i` of a MySQL extraction is the `i`-th table row: its columns are
   * that table's column rows in row order, its keys follow `PRI`, its
   * foreign keys are its FK rows in order, and its domain is inferred from
   * its name.
   */
  lemma {:induction false} MysqlTableSpec(db: string, tRows: seq<TableRow>, cRows: seq<MysqlColumnRow>, fRows: seq<FkRow>,
                       now: string, i: int)
    requires 0 <= i < |tRows|
    ensures var res := MysqlResult(db, tRows, cRows, fRows, now);
      var t, cols := res.tables[i], RowsFor(cRows, MysqlRowTable, tRows[i].name);
      && |res.tables| == |tRows|
      && t.name == tRows[i].name && t.domain == Some(InferDomain(t.name))
      && |t.columns| == |cols|
      && (forall j :: 0 <= j < |cols| ==> t.columns[j].name == cols[j].columnName && cols[j].tableName == t.name)
      && t.pkColumns == PkNames(t.columns)
      && (forall j :: 0 <= j < |cols| ==> (t.columns[j].isPk <==> t.columns[j].keyType == "PRI"))
      && |t.fkRefs| == |RowsFor(fRows, FkRowTable, tRows[i].name)|
  {
    var cols := RowsFor(cRows, MysqlRowTable, tRows[i].name);
    assert MysqlResult(db, tRows, cRows, fRows, now).tables[i] == MysqlTable(tRows[i], cols, RowsFor(fRows, FkRowTable, tRows[i].name));
    MysqlTableOf(tRows[i], cols, RowsFor(fRows, FkRowTable, tRows[i].name));
    RowsForSpec(cRows, MysqlRowTable, tRows[i].name);
    assert forall j :: 0 <= j < |cols| ==> cols[j] in cols;
  }

  /** One MySQL table built from its rows. */
  lemma MysqlTableOf(row: TableRow, cols: seq<MysqlColumnRow>, fks: seq<FkRow>)
    ensures var t := MysqlTable(row, cols, fks);
      && t.name == row.name && t.domain == Some(InferDomain(t.name))
      && |t.columns| == |cols|
      && (forall j :: 0 <= j < |cols| ==> t.columns[j].name == cols[j].columnName)
      && t.pkColumns == PkNames(t.columns)
      && (forall j :: 0 <= j < |cols| ==> (t.columns[j].isPk <==> t.columns[j].keyType == "PRI"))
      && |t.fkRefs| == |fks|
  {
    MysqlPkColumns(cols);
  }

  /** The three totals describe the tables returned. */
  lemma {:induction false} TotalsSpec(tables: seq<Table>, k: int)
    requires 0 <= k < |tables|
    ensures ColumnTotal(tables) >= |tables[k].columns| && FkTotal(tables) >= |tables[k].fkRefs|
  {
    if k < |tables| - 1 {
      TotalsSpec(tables[..|tables| - 1], k);
    }
  }

  /**
   * When the table names are distinct, `column_count` counts the column rows
   * that belong to a listed table; when every column row belongs to one, it
   * is the number of column rows.
   */
  lemma {:induction false} MysqlColumnCount(db: string, tRows: seq<TableRow>, cRows: seq<MysqlColumnRow>,
                                            fRows: seq<FkRow>, now: string)
    requires forall a, b :: 0 <= a < b < |tRows| ==> tRows[a].name != tRows[b].name
    ensures var names := seq(|tRows|, i requires 0 <= i < |tRows| => tRows[i].name);
      MysqlResult(db, tRows, cRows, fRows, now).columnCount == CountIn(cRows, MysqlRowTable, names)
  {
    var names := seq(|tRows|, i requires 0 <= i < |tRows| => tRows[i].name);
    var tables := MysqlResult(db, tRows, cRows, fRows, now).tables;
    TablesColumnCount(tRows, cRows, fRows, |tRows|);
    assert names[..|tRows|] == names;
    assert tables[..|tRows|] == tables;
  }

  lemma {:induction false} TablesColumnCount(tRows: seq<TableRow>, cRows: seq<MysqlColumnRow>, fRows: seq<FkRow>, n: int)
    requires 0 <= n <= |tRows|
    requires forall a, b :: 0 <= a < b < |tRows| ==> tRows[a].name != tRows[b].name
    ensures var names := seq(|tRows|, i requires 0 <= i < |tRows| => tRows[i].name);
      var tables := seq(|tRows|, i requires 0 <= i < |tRows| =>
        MysqlTable(tRows[i], RowsFor(cRows, MysqlRowTable, tRows[i].name), RowsFor(fRows, FkRowTable, tRows[i].name)));
      ColumnTotal(tables[..n]) == CountIn(cRows, MysqlRowTable, names[..n])
  {
    var names := seq(|tRows|, i requires 0 <= i < |tRows| => tRows[i].name);
    var tables := seq(|tRows|, i requires 0 <= i < |tRows| =>
      MysqlTable(tRows[i], RowsFor(cRows, MysqlRowTable, tRows[i].name), RowsFor(fRows, FkRowTable, tRows[i].name)));
    forall i | 0 <= i < |tables| ensures |tables[i].columns| == |RowsFor(cRows, MysqlRowTable, names[i])| {
    }
    ColumnsCounted(tables, names, cRows, MysqlRowTable, n);
  }

  /** Tables whose column counts are the row counts of distinct names: the total counts those rows. */
  lemma {:induction false} ColumnsCounted<R>(tables: seq<Table>, names: seq<string>, rows: seq<R>, key: R -> string, n: int)
    requires 0 <= n <= |tables| == |names|
    requires forall a, b :: 0 <= a < b < |names| ==> names[a] != names[b]
    requires forall i :: 0 <= i < |tables| ==> |tables[i].columns| == |RowsFor(rows, key, names[i])|
    ensures ColumnTotal(tables[..n]) == CountIn(rows, key, names[..n])
  {
    if n == 0 {
      CountInEmpty(rows, key);
      assert names[..0] == [];
    } else {
      ColumnsCounted(tables, names, rows, key, n - 1);
      assert tables[..n][..n - 1] == tables[..n - 1];
      assert names[..n] == names[..n - 1] + [names[n - 1]];
      assert names[n - 1] !in names[..n - 1];
      CountInAdd(rows, key, names[..n - 1], names[n - 1]);
    }
  }

  lemma {:induction false} CountInEmpty<R>(rows: seq<R>, key: R -> string)
    ensures CountIn(rows, key, []) == 0
  {
    if |rows| > 0 {
      CountInEmpty(rows[..|rows| - 1], key);
    }
  }

  /** When every column row names a listed table, `column_count` is the number of column rows. */
  lemma {:induction false} MysqlColumnCountAll(db: string, tRows: seq<TableRow>, cRows: seq<MysqlColumnRow>,
                            fRows: seq<FkRow>, now: string)
    requires forall a, b :: 0 <= a < b < |tRows| ==> tRows[a].name != tRows[b].name
    requires forall c :: c in cRows ==> exists i :: 0 <= i < |tRows| && tRows[i].name == c.tableName
    ensures MysqlResult(db, tRows, cRows, fRows, now).columnCount == |cRows|
  {
    var names := seq(|tRows|, i requires 0 <= i < |tRows| => tRows[i].name);
    MysqlColumnCount(db, tRows, cRows, fRows, now);
    forall c | c in cRows ensures MysqlRowTable(c) in names {
      var i :| 0 <= i < |tRows| && tRows[i].name == c.tableName;
      assert names[i] == c.tableName;
    }
    CountInAll(cRows, MysqlRowTable, names);
  }

  // ---------------------------------------------------------------- MSSQL tables

  /** The column of an MSSQL table; `pkSet` is the table's primary-key names. */
  function MssqlColumn(c: MssqlColumnRow, pkSet: seq<string>): Column {
    Column(c.ordinal, c.columnName, ColTypeStr(c), c.isNullable,
      if c.columnName in pkSet then "PRI" else "", c.columnName in pkSet,
      c.defaultValue, if c.isIdentity then Some("IDENTITY") else None, NonEmpty(c.comment))
  }

  /** The primary-key names of a table's key rows, each once, in order of first appearance. */
  function PkSetOf(pks: seq<PkRow>): seq<string> {
    Dedup(seq(|pks|, j requires 0 <= j < |pks| => pks[j].columnName))
  }

  function MssqlTable(t: TableRow, cols: seq<MssqlColumnRow>, pks: seq<PkRow>, fks: seq<FkRow>): Table {
    var pkSet := PkSetOf(pks);
    Table(t.name, NonEmpty(t.comment), Some(InferDomain(t.name)),
      seq(|cols|, j requires 0 <= j < |cols| => MssqlColumn(cols[j], pkSet)), pkSet, FkRefsOf(fks))
  }

  function MssqlResult(db: string, tRows: seq<TableRow>, cRows: seq<MssqlColumnRow>, pRows: seq<PkRow>,
                       fRows: seq<FkRow>, now: string): ExtractResult
  {
    WithTotals(db, seq(|tRows|, i requires 0 <= i < |tRows| =>
      MssqlTable(tRows[i], RowsFor(cRows, MssqlRowTable, tRows[i].name), RowsFor(pRows, PkRowTable, tRows[i].name),
        RowsFor(fRows, FkRowTable, tRows[i].name))), now)
  }

  /** `extractMssql` after the driver, grouping columns, key columns and foreign keys per table. */
  method ExtractMssql(db: string, connectError: Option<DbError>, tRows: seq<TableRow>, cRows: seq<MssqlColumnRow>,
                      pRows: seq<PkRow>, fRows: seq<FkRow>, now: string)
    returns (r: Result<ExtractResult, ErrorMessage>)
    ensures connectError.Some? ==> r == Err(TranslateDbError(connectError.value))
    ensures connectError.None? ==> r == Ok(MssqlResult(db, tRows, cRows, pRows, fRows, now))
  {
    if connectError.Some? {
      return Err(TranslateDbError(connectError.value));
    }
    var colMap := GroupBy(cRows, MssqlRowTable);
    var pkMap := GroupBy(pRows, PkRowTable);
    var fkMap := GroupBy(fRows, FkRowTable);
    var tables := seq(|tRows|, i requires 0 <= i < |tRows| =>
      MssqlTable(tRows[i], Get(colMap, tRows[i].name), Get(pkMap, tRows[i].name), Get(fkMap, tRows[i].name)));
    assert tables == MssqlResult(db, tRows, cRows, pRows, fRows, now).tables;
    r := Ok(WithTotals(db, tables, now));
  }

  /**
   * In an MSSQL table a column is a key exactly when its name is among the
   * table's key rows, its key type is `PRI` exactly then, its type is the
   * `colTypeStr` text, and the key list repeats no name.
   */
  lemma {:induction false} MssqlTableSpec(db: string, tRows: seq<TableRow>, cRows: seq<MssqlColumnRow>, pRows: seq<PkRow>,
                       fRows: seq<FkRow>, now: string, i: int, j: int)
    requires 0 <= i < |tRows|
    requires 0 <= j < |RowsFor(cRows, MssqlRowTable, tRows[i].name)|
    ensures var res := MssqlResult(db, tRows, cRows, pRows, fRows, now);
      var t, c := res.tables[i], RowsFor(cRows, MssqlRowTable, tRows[i].name)[j];
      var pks := RowsFor(pRows, PkRowTable, tRows[i].name);
      && t.name == tRows[i].name
      && t.columns[j].name == c.columnName
      && (t.columns[j].isPk <==> exists p :: p in pRows && p.tableName == t.name && p.columnName == c.columnName)
      && (t.columns[j].isPk <==> t.columns[j].keyType == "PRI")
      && (t.columns[j].isPk <==> c.columnName in t.pkColumns)
      && t.columns[j].dataType == ColTypeStr(c)
      && (forall a, b :: 0 <= a < b < |t.pkColumns| ==> t.pkColumns[a] != t.pkColumns[b])
  {
    var name := tRows[i].name;
    var pks := RowsFor(pRows, PkRowTable, name);
    var names := seq(|pks|, k requires 0 <= k < |pks| => pks[k].columnName);
    var c := RowsFor(cRows, MssqlRowTable, name)[j];
    RowsForSpec(pRows, PkRowTable, name);
    if c.columnName in names {
      var k :| 0 <= k < |pks| && names[k] == c.columnName;
      assert pks[k] in pks;
    }
    if exists p :: p in pRows && p.tableName == name && p.columnName == c.columnName {
      var p :| p in pRows && p.tableName == name && p.columnName == c.columnName;
      assert p in pks;
      var k :| 0 <= k < |pks| && pks[k] == p;
      assert names[k] == c.columnName;
    }
  }

  /** `[...pkSet]` holds each key name once and exactly the names of the key rows. */
  lemma {:induction false} PkSetSpec(pks: seq<PkRow>)
    ensures forall x :: x in PkSetOf(pks) <==> exists p :: p in pks && p.columnName == x
  {
    var names := seq(|pks|, j requires 0 <= j < |pks| => pks[j].columnName);
    forall x | x in names ensures exists p :: p in pks && p.columnName == x {
      var k :| 0 <= k < |names| && names[k] == x;
      assert pks[k] in pks;
    }
    forall x | exists p :: p in pks && p.columnName == x ensures x in names {
      var p :| p in pks && p.columnName == x;
      var k :| 0 <= k < |pks| && pks[k] == p;
      assert names[k] == x;
    }
  }

  // ---------------------------------------------------------------- connection tests and dispatch

  /** What a connection test reports, by kind. */
  datatype TestMessage = Connected | TestFailed(error: ErrorMessage) | OracleUnsupported | UnsupportedType(dbType: string)

  datatype DbTestResult = DbTestResult(success: bool, dbVersion: string, message: TestMessage)

  /**
   * `testMysql`: the driver either answered the version query (the version
   * text, if any row came back) or raised an error.
   */
  function MysqlTest(outcome: Result<Option<string>, DbError>): (r: DbTestResult)
    ensures r.success <==> outcome.Ok?
    ensures outcome.Ok? ==> StartsWith(r.dbVersion, "MySQL ")
    ensures outcome.Err? ==> r.dbVersion == "" && r.message == TestFailed(TranslateDbError(outcome.error))
  {
    match outcome
    case Ok(ver) => DbTestResult(true, "MySQL " + ver.GetOr("unknown"), Connected)
    case Err(e) => DbTestResult(false, "", TestFailed(TranslateDbError(e)))
  }

  /** `testMssql`: the version is the first line of the server's version text, trimmed. */
  function MssqlTest(outcome: Result<Option<string>, DbError>): (r: DbTestResult)
    ensures r.success <==> outcome.Ok?
    ensures outcome.Err? ==> r.dbVersion == "" && r.message == TestFailed(TranslateDbError(outcome.error))
  {
    match outcome
    case Ok(ver) => DbTestResult(true, Trim(Split(ver.GetOr("unknown"), '\n')[0]), Connected)
    case Err(e) => DbTestResult(false, "", TestFailed(TranslateDbError(e)))
  }

  /** Every character of a trimmed text comes from the text. */
  lemma {:induction false} TrimWithin(s: string)
    ensures forall c :: c in Trim(s) ==> c in s
  {
    var t := TrimStart(s);
    assert forall c :: c in t ==> c in s by {
      assert t == s[|s| - |t|..];
    }
    assert Trim(s) == t[..|Trim(s)|];
  }

  /** The MSSQL version text is one line. */
  lemma {:induction false} MssqlVersionOneLine(outcome: Result<Option<string>, DbError>)
    ensures '\n' !in MssqlTest(outcome).dbVersion
  {
    if outcome.Ok? {
      var v := outcome.value.GetOr("unknown");
      var first := Split(v, '\n')[0];
      assert '\n' !in first;
      TrimWithin(first);
    }
  }

  /** `testDbConnection`: Oracle is refused, MySQL and MSSQL go to their drivers, any other type is refused. */
  function TestDbConnection(dbType: string, mysql: Result<Option<string>, DbError>,
                            mssql: Result<Option<string>, DbError>): (r: DbTestResult)
    ensures !r.success ==> r.dbVersion == ""
  {
    if dbType == "oracle" then DbTestResult(false, "", OracleUnsupported)
    else if dbType == "mysql" then MysqlTest(mysql)
    else if dbType == "mssql" then MssqlTest(mssql)
    else DbTestResult(false, "", UnsupportedType(dbType))
  }

  /** Why an extraction failed. */
  datatype ExtractFailure = OracleNotSupported | UnsupportedDbType(dbType: string) | DriverFailed(error: ErrorMessage)

  /** `extractMetadata`: the same dispatch, with failures thrown. */
  function ExtractMetadata(dbType: string, mysql: Result<ExtractResult, ErrorMessage>,
                           mssql: Result<ExtractResult, ErrorMessage>): (r: Result<ExtractResult, ExtractFailure>)
    ensures r.Ok? ==> (dbType == "mysql" && mysql == Ok(r.value)) || (dbType == "mssql" && mssql == Ok(r.value))
  {
    if dbType == "oracle" then Err(OracleNotSupported)
    else if dbType == "mysql" then (if mysql.Ok? then Ok(mysql.value) else Err(DriverFailed(mysql.error)))
    else if dbType == "mssql" then (if mssql.Ok? then Ok(mssql.value) else Err(DriverFailed(mssql.error)))
    else Err(UnsupportedDbType(dbType))
  }

  /** A test succeeds exactly for MySQL or MSSQL when the driver answered. */
  lemma {:induction false} TestSuccessIff(dbType: string, mysql: Result<Option<string>, DbError>, mssql: Result<Option<string>, DbError>)
    ensures TestDbConnection(dbType, mysql, mssql).success <==>
      (dbType == "mysql" && mysql.Ok?) || (dbType == "mssql" && mssql.Ok?)
  {
  }

  /**
   * Testing and extracting refuse the same types: Oracle and unknown types
   * are rejected by both before any driver is used.
   */
  lemma {:induction false} DispatchAgrees(dbType: string, mysql: Result<Option<string>, DbError>, mssql: Result<Option<string>, DbError>,
                       mysqlRes: Result<ExtractResult, ErrorMessage>, mssqlRes: Result<ExtractResult, ErrorMessage>)
    ensures var t, x := TestDbConnection(dbType, mysql, mssql), ExtractMetadata(dbType, mysqlRes, mssqlRes);
      && (t.message == OracleUnsupported <==> x == Err(OracleNotSupported))
      && (t.message == UnsupportedType(dbType) <==> x == Err(UnsupportedDbType(dbType)))
  {
  }
}
