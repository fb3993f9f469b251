/**
 * The worker's HTTP endpoints that hold logic (`routers/worker.py`): the
 * extract-metadata endpoint (schema selection and the mapping of errors to
 * status codes) and the build-erd endpoint (tables and columns copied into
 * the graph, `is_fk` marked from the declared foreign keys).
 */
module WorkerRouter {
  import opened Wrappers
  import opened Schema
  import opened WorkerConnection
  import MetadataService
  import ErdController

  // ------------------------------------------------------------ extract-metadata

  /**
   * `req.database or req.service_name or req.sid`, with a falsy result as
   * `None`: the first present, non-empty target in that priority.
   */
  function SchemaOf(req: DbConnectionRequest): (r: Option<string>)
    ensures r.Some? <==> Truthy(req.database) || Truthy(req.serviceName) || Truthy(req.sid)
    ensures r.Some? ==> Truthy(r)
    ensures Truthy(req.database) ==> r == req.database
    ensures !Truthy(req.database) && Truthy(req.serviceName) ==> r == req.serviceName
    ensures !Truthy(req.database) && !Truthy(req.serviceName) && Truthy(req.sid) ==> r == req.sid
  {
    if Truthy(req.database) then req.database
    else if Truthy(req.serviceName) then req.serviceName
    else if Truthy(req.sid) then req.sid
    else None
  }

  /** `make_connector`: a connector for the three known types, else `UnsupportedDbTypeError`. */
  function MakeConnector(req: DbConnectionRequest): (r: Result<DbType, string>)
    ensures r.Ok? <==> ParseDbType(req.dbType).Some?
    ensures r.Ok? ==> DbTypeName(r.value) == req.dbType
    ensures r.Err? ==> r.error == req.dbType
  {
    match ParseDbType(req.dbType)
    case Some(t) => Ok(t)
    case None => Err(req.dbType)
  }

  /**
   * What the connector's two raw queries give for a schema: the rows and the
   * extraction time, a `ConnectorError` with its code, or any other exception.
   */
  datatype Fetch =
    | Fetched(rawCols: seq<MetadataService.ColumnRow>, rawFks: seq<MetadataService.FkRow>, now: string)
    | ConnectorFailed(message: string, errorCode: string)
    | Crashed

  /** The `detail` of an `HTTPException`; the texts of the messages are not modelled. */
  datatype ErrorDetail =
    | SchemaRequired
    | NotImplemented(dbType: string)
    | ConnectorMessage(message: string, errorCode: string)
    | ExtractionFailed

  datatype Reply = Metadata(metadata: ExtractResult) | HttpError(status: int, detail: ErrorDetail)

  /**
   * `extract_metadata_endpoint`. The database is given as `fetch`: what the
   * connector of a type returns for a schema name.
   */
  function ExtractEndpoint(req: DbConnectionRequest, fetch: (DbType, string) -> Fetch): (r: Reply)
    ensures SchemaOf(req).None? <==> r == HttpError(400, SchemaRequired)
    ensures r.HttpError? ==> r.status == 400 || r.status == 500 || r.status == 501
    ensures r.Metadata? ==>
      && SchemaOf(req).Some? && MakeConnector(req).Ok?
      && var f := fetch(MakeConnector(req).value, SchemaOf(req).value);
      && f.Fetched?
      && r.metadata == MetadataService.PyResult(SchemaOf(req).value, f.rawCols, f.rawFks, f.now)
  {
    match SchemaOf(req)
    case None => HttpError(400, SchemaRequired)
    case Some(schema) =>
      match MakeConnector(req)
      case Err(dbType) => HttpError(501, NotImplemented(dbType))
      case Ok(t) =>
        match fetch(t, schema)
        case Fetched(rawCols, rawFks, now) => Metadata(MetadataService.PyResult(schema, rawCols, rawFks, now))
        case ConnectorFailed(message, code) => HttpError(400, ConnectorMessage(message, code))
        case Crashed => HttpError(500, ExtractionFailed)
  }

  /** The status codes, both directions, once a schema is known. */
  lemma {:induction false} ExtractStatus(req: DbConnectionRequest, fetch: (DbType, string) -> Fetch)
    requires SchemaOf(req).Some?
    ensures var r := ExtractEndpoint(req, fetch);
      && (r == HttpError(501, NotImplemented(req.dbType)) <==> MakeConnector(req).Err?)
      && (MakeConnector(req).Ok? ==>
            var f := fetch(MakeConnector(req).value, SchemaOf(req).value);
            && (r.Metadata? <==> f.Fetched?)
            && (r.HttpError? && r.detail.ConnectorMessage? <==> f.ConnectorFailed?)
            && (f.ConnectorFailed? ==> r == HttpError(400, ConnectorMessage(f.message, f.errorCode)))
            && (r == HttpError(500, ExtractionFailed) <==> f.Crashed?))
  {
  }

  /**
   * A request that passed `check_db_specific_fields` always names a schema
   * and a known type, so it never gets the endpoint's own 400 or the 501.
   */
  lemma {:induction false} ValidatedRequestFetches(req: DbConnectionRequest, fetch: (DbType, string) -> Fetch)
    requires CheckRequest(req).Ok?
    ensures SchemaOf(req).Some? && MakeConnector(req) == Ok(CheckRequest(req).value)
    ensures var r := ExtractEndpoint(req, fetch);
      r.Metadata? || (r.HttpError? && r.status != 501 && r.detail != SchemaRequired)
  {
    CheckRequestIff(req);
  }

  /** An Oracle request that also carries a database extracts the schema the database names. */
  lemma {:induction false} OracleSchemaFromDatabase(req: DbConnectionRequest)
    requires req.dbType == "oracle" && Truthy(req.database)
    ensures SchemaOf(req) == req.database
  {
  }

  // ------------------------------------------------------------ build-erd

  /** The worker's graph column: every text present, `is_fk` a plain flag. */
  datatype GraphColumn = GraphColumn(
    name: string,
    dataType: string,
    nullable: bool,
    isPk: bool,
    isFk: bool,
    comment: string)

  /** The worker's graph table: no id, comment and domain default to the empty text. */
  datatype GraphTable = GraphTable(
    name: string,
    comment: string,
    domain: string,
    columns: seq<GraphColumn>)

  datatype Graph = Graph(tables: seq<GraphTable>, relations: seq<Relation>, extractedAt: string)

  /** The dictionary appended for one column of a table whose declared FK columns are `fkCols`. */
  function ColumnEntry(c: Column, fkCols: set<string>): (g: GraphColumn)
    ensures g.name == c.name && g.dataType == c.dataType && g.nullable == c.nullable && g.isPk == c.isPk
    ensures g.isFk <==> c.name in fkCols
    ensures g.comment == c.comment.GetOr("")
  {
    GraphColumn(c.name, c.dataType, c.nullable, c.isPk, c.name in fkCols, c.comment.GetOr(""))
  }

  /** The dictionary appended for one table. */
  function TableEntry(t: Table): (g: GraphTable)
    ensures g.name == t.name && g.comment == t.comment.GetOr("") && g.domain == t.domain.GetOr("")
    ensures |g.columns| == |t.columns|
    ensures forall j :: 0 <= j < |t.columns| ==> g.columns[j] == ColumnEntry(t.columns[j], FkColumns(t))
  {
    GraphTable(t.name, t.comment.GetOr(""), t.domain.GetOr(""),
      seq(|t.columns|, j requires 0 <= j < |t.columns| => ColumnEntry(t.columns[j], FkColumns(t))))
  }

  function GraphOf(metadata: ExtractResult, relations: seq<Relation>): (g: Graph)
    ensures |g.tables| == |metadata.tables|
    ensures forall i :: 0 <= i < |metadata.tables| ==> g.tables[i] == TableEntry(metadata.tables[i])
    ensures g.relations == relations && g.extractedAt == metadata.extractedAt
  {
    Graph(seq(|metadata.tables|, i requires 0 <= i < |metadata.tables| => TableEntry(metadata.tables[i])),
      relations, metadata.extractedAt)
  }

  /** `build_erd_endpoint`: the outer loop over tables, the inner loop over their columns. */
  method BuildErdEndpoint(metadata: ExtractResult, relations: seq<Relation>) returns (g: Graph)
    ensures g == GraphOf(metadata, relations)
  {
    var tables: seq<GraphTable> := [];
    for i := 0 to |metadata.tables|
      invariant |tables| == i
      invariant forall k :: 0 <= k < i ==> tables[k] == TableEntry(metadata.tables[k])
    {
      var table := metadata.tables[i];
      var columns: seq<GraphColumn> := [];
      var fkCols := FkColumns(table);
      for j := 0 to |table.columns|
        invariant |columns| == j
        invariant forall k :: 0 <= k < j ==> columns[k] == ColumnEntry(table.columns[k], fkCols)
      {
        var col := table.columns[j];
        columns := columns + [GraphColumn(col.name, col.dataType, col.nullable, col.isPk,
          col.name in fkCols, col.comment.GetOr(""))];
      }
      tables := tables + [GraphTable(table.name, table.comment.GetOr(""), table.domain.GetOr(""), columns)];
    }
    g := Graph(tables, relations, metadata.extractedAt);
  }

  /**
   * `is_fk` is set exactly for the columns a declared foreign key of the
   * same table names; the inferred relations play no part.
   */
  lemma {:induction false} IsFkDeclaredOnly(metadata: ExtractResult, relations: seq<Relation>, i: int, j: int)
    requires 0 <= i < |metadata.tables| && 0 <= j < |metadata.tables[i].columns|
    ensures var t := metadata.tables[i];
      GraphOf(metadata, relations).tables[i].columns[j].isFk <==>
        exists f :: f in t.fkRefs && f.columnName == t.columns[j].name
    ensures forall other: seq<Relation> :: GraphOf(metadata, other).tables == GraphOf(metadata, relations).tables
  {
    var t := metadata.tables[i];
    var name := t.columns[j].name;
    if exists f :: f in t.fkRefs && f.columnName == name {
      var f :| f in t.fkRefs && f.columnName == name;
      assert name in FkColumns(t);
    }
  }

  /**
   * Against the server's `toBuildResult`, for tables with distinct names: a
   * column the worker marks is marked by the server too, and the server
   * marks more only where an inferred relation has the column as source.
   */
  lemma {:induction false} IsFkAgainstServer(metadata: ExtractResult, relations: seq<Relation>, i: int, j: int)
    requires forall a, b :: 0 <= a < b < |metadata.tables| ==> metadata.tables[a].name != metadata.tables[b].name
    requires 0 <= i < |metadata.tables| && 0 <= j < |metadata.tables[i].columns|
    ensures var t := metadata.tables[i];
      var worker := GraphOf(metadata, relations).tables[i].columns[j].isFk;
      var server := ErdController.BuildOf(metadata, relations).tables[i].columns[j].isFk;
      && (worker ==> server)
      && (server && !worker ==>
            exists r :: r in relations && r.sourceTable == t.name && r.sourceColumn == t.columns[j].name)
  {
    IsFkDeclaredOnly(metadata, relations, i, j);
    ErdController.IsFkOwnTable(metadata, relations, i, j);
  }
}
