/**
 * The worker's connection request (`DbConnectionRequest`) and the validator
 * that runs after its fields are parsed: a MySQL or MSSQL request needs a
 * database, an Oracle request a service name or a SID. The test-connection
 * and extract-metadata requests are this same class, so one check serves both.
 */
module WorkerConnection {
  import opened Wrappers

  datatype DbType = MySql | MsSql | Oracle

  function DbTypeName(t: DbType): string {
    match t
    case MySql => "mysql"
    case MsSql => "mssql"
    case Oracle => "oracle"
  }

  /** The `Literal['mysql', 'mssql', 'oracle']` field: the one type with that name, if any. */
  function ParseDbType(s: string): (r: Option<DbType>)
    ensures r.Some? <==> s == "mysql" || s == "mssql" || s == "oracle"
    ensures r.Some? ==> DbTypeName(r.value) == s
  {
    if s == "mysql" then Some(MySql)
    else if s == "mssql" then Some(MsSql)
    else if s == "oracle" then Some(Oracle)
    else None
  }

  lemma {:induction false} ParseDbTypeName(t: DbType)
    ensures ParseDbType(DbTypeName(t)) == Some(t)
  {
  }

  /** The request as the worker receives it; the three optional targets are `None` when absent. */
  datatype DbConnectionRequest = DbConnectionRequest(
    dbType: string,
    host: string,
    port: int,
    database: Option<string>,
    serviceName: Option<string>,
    sid: Option<string>,
    username: string,
    password: string)

  /** Why a request is refused: a type outside the literal, or the missing target of its type. */
  datatype RequestError = UnknownDbType | DatabaseRequired(dbType: DbType) | OracleTargetRequired

  /**
   * Field parsing of `db_type`, then `check_db_specific_fields`: Python's `not x`
   * holds for `None` and for the empty string, so a database of spaces passes.
   */
  function CheckRequest(req: DbConnectionRequest): (r: Result<DbType, RequestError>)
    ensures r.Ok? ==> DbTypeName(r.value) == req.dbType
    ensures r.Ok? && r.value != Oracle ==> Truthy(req.database)
    ensures r.Ok? && r.value == Oracle ==> Truthy(req.serviceName) || Truthy(req.sid)
    ensures r == Err(UnknownDbType) <==> ParseDbType(req.dbType).None?
    ensures r.Err? && r.error.DatabaseRequired? ==>
      r.error.dbType != Oracle && DbTypeName(r.error.dbType) == req.dbType && !Truthy(req.database)
    ensures r == Err(OracleTargetRequired) ==>
      req.dbType == "oracle" && !Truthy(req.serviceName) && !Truthy(req.sid)
  {
    match ParseDbType(req.dbType)
    case None => Err(UnknownDbType)
    case Some(t) =>
      if t != Oracle && !Truthy(req.database) then Err(DatabaseRequired(t))
      else if t == Oracle && !Truthy(req.serviceName) && !Truthy(req.sid) then Err(OracleTargetRequired)
      else Ok(t)
  }

  /** The accepted requests, both directions: the target its type needs is present and not empty. */
  lemma {:induction false} CheckRequestIff(req: DbConnectionRequest)
    ensures CheckRequest(req).Ok? <==>
      || ((req.dbType == "mysql" || req.dbType == "mssql") && Truthy(req.database))
      || (req.dbType == "oracle" && (Truthy(req.serviceName) || Truthy(req.sid)))
  {
  }

  /** An Oracle request is judged by its service name and SID alone; a database does not help. */
  lemma {:induction false} OracleIgnoresDatabase(req: DbConnectionRequest)
    requires req.dbType == "oracle"
    ensures CheckRequest(req) == CheckRequest(req.(database := None))
  {
  }

  /** A database of spaces passes the worker's check; an empty one does not. */
  lemma {:induction false} BlankDatabaseExample()
    ensures CheckRequest(DbConnectionRequest("mysql", "h", 3306, Some(" "), None, None, "u", "p")) == Ok(MySql)
    ensures CheckRequest(DbConnectionRequest("mysql", "h", 3306, Some(""), None, None, "u", "p"))
      == Err(DatabaseRequired(MySql))
  {
  }
}
