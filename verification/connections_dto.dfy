/**
 * The server's connection request schemas (`connections.dto.ts`): the field
 * rules of `baseConnectionSchema`, the per-type refinement `dbTypeRefine`,
 * and the test, create and update schemas built from them. A parse is the
 * list of issues it reports; the body is accepted when the list is empty.
 */
module ConnectionsDto {
  import opened Wrappers
  import opened Text
  import WorkerConnection

  /**
   * The body of a test or create request once `port` is coerced to a number
   * (`None` when the coercion gives NaN).
   */
  datatype ConnectionInput = ConnectionInput(
    dbType: string,
    host: string,
    port: Option<real>,
    database: Option<string>,
    serviceName: Option<string>,
    sid: Option<string>,
    username: string,
    password: string)

  /** The path an issue is reported on. */
  datatype Field = DbTypeField | Host | Port | Database | ServiceName | Username | Password | ConnectionName

  /** The messages of the server's issues, one per check; their texts are not modelled. */
  datatype Message =
    | DbTypeChoice | HostRequired | PortNotNumber | NotInteger | TooSmall | PortRange
    | UsernameRequired | PasswordRequired | DatabaseRequired | OracleTargetRequired | NameRequired

  datatype Issue = Issue(path: Field, message: Message)

  predicate KnownDbType(t: string) {
    t == "mysql" || t == "mssql" || t == "oracle"
  }

  /** `x?.trim()` is truthy: present and not only white space. */
  predicate HasText(s: Option<string>) {
    s.Some? && Trim(s.value) != ""
  }

  predicate IsInteger(r: real) {
    r.Floor as real == r
  }

  /** The port the rules accept: an integer from 1 to 65535. */
  predicate PortOk(port: Option<real>) {
    port.Some? && IsInteger(port.value) && 1.0 <= port.value <= 65535.0
  }

  /** The rules, all together: what the test schema accepts. */
  predicate ValidConnection(x: ConnectionInput) {
    && KnownDbType(x.dbType) && x.host != "" && PortOk(x.port) && x.username != "" && x.password != ""
    && ((x.dbType == "mysql" || x.dbType == "mssql") ==> HasText(x.database))
    && (x.dbType == "oracle" ==> HasText(x.serviceName) || HasText(x.sid))
  }

  /** `z.coerce.number().int().min(1).max(65535)`: every failing check, in that order. */
  function PortIssues(port: Option<real>): (r: seq<Issue>)
    ensures r == [] <==> PortOk(port)
    ensures forall i :: 0 <= i < |r| ==> r[i].path == Port
    ensures forall x :: x in r ==> x.path == Port
    ensures port.None? ==> r == [Issue(Port, PortNotNumber)]
  {
    match port
    case None => [Issue(Port, PortNotNumber)]
    case Some(p) =>
      (if IsInteger(p) then [] else [Issue(Port, NotInteger)])
      + (if p < 1.0 then [Issue(Port, TooSmall)] else [])
      + (if p > 65535.0 then [Issue(Port, PortRange)] else [])
  }

  /** `z.string().min(1, message)`. */
  function Required(s: string, f: Field, m: Message): seq<Issue> {
    if s == "" then [Issue(f, m)] else []
  }

  /** The field checks of `baseConnectionSchema`, in the order of its fields. */
  function BaseIssues(x: ConnectionInput): (r: seq<Issue>)
    ensures r == [] <==> KnownDbType(x.dbType) && x.host != "" && PortOk(x.port) && x.username != "" && x.password != ""
    ensures Issue(Database, DatabaseRequired) !in r && Issue(ServiceName, OracleTargetRequired) !in r
  {
    (if KnownDbType(x.dbType) then [] else [Issue(DbTypeField, DbTypeChoice)])
    + Required(x.host, Host, HostRequired)
    + PortIssues(x.port)
    + Required(x.username, Username, UsernameRequired)
    + Required(x.password, Password, PasswordRequired)
  }

  /** `dbTypeRefine`: the target a type needs, reported on `database` or on `serviceName`. */
  function RefineIssues(x: ConnectionInput): seq<Issue> {
    (if (x.dbType == "mysql" || x.dbType == "mssql") && !HasText(x.database)
     then [Issue(Database, DatabaseRequired)] else [])
    + (if x.dbType == "oracle" && !HasText(x.serviceName) && !HasText(x.sid)
       then [Issue(ServiceName, OracleTargetRequired)] else [])
  }

  /**
   * `connectionTestSchema`: the field checks, then the refinement, which zod
   * runs only when no field check aborted the parse (an unknown `dbType`, a
   * port that is not a number).
   */
  function TestIssues(x: ConnectionInput): (r: seq<Issue>)
    ensures r == [] <==> ValidConnection(x)
    ensures Issue(Database, DatabaseRequired) in r <==>
      (x.dbType == "mysql" || x.dbType == "mssql") && x.port.Some? && !HasText(x.database)
    ensures Issue(ServiceName, OracleTargetRequired) in r <==>
      x.dbType == "oracle" && x.port.Some? && !HasText(x.serviceName) && !HasText(x.sid)
  {
    var base := BaseIssues(x);
    var refine := if KnownDbType(x.dbType) && x.port.Some? then RefineIssues(x) else [];
    base + refine
  }

  /** The body of a create request: the test fields plus two optional texts. */
  datatype CreateInput = CreateInput(connection: ConnectionInput, projectId: Option<string>, connectionName: Option<string>)

  /** `connectionCreateSchema`: the two added fields take any text or none. */
  function CreateIssues(c: CreateInput): (r: seq<Issue>)
    ensures r == [] <==> ValidConnection(c.connection)
  {
    TestIssues(c.connection)
  }

  /** `connectionUpdateSchema`: a connection name of at least one character. */
  function UpdateIssues(connectionName: string): (r: seq<Issue>)
    ensures r == [] <==> connectionName != ""
    ensures forall i :: 0 <= i < |r| ==> r[i].path == ConnectionName
  {
    Required(connectionName, ConnectionName, NameRequired)
  }

  /** `HasText` holds iff the text has a character that is not white space. */
  lemma {:induction false} HasTextIff(s: Option<string>)
    ensures HasText(s) <==> s.Some? && exists i :: 0 <= i < |s.value| && !IsSpace(s.value[i])
  {
    if s.Some? {
      TrimEmptyIffBlank(s.value);
    }
  }

  // ------------------------------------------------------------ against the worker

  /** The worker payload built from the request, field by field. */
  function ToWorker(x: ConnectionInput): (w: WorkerConnection.DbConnectionRequest)
    requires x.port.Some?
    ensures w.dbType == x.dbType && w.database == x.database
    ensures w.serviceName == x.serviceName && w.sid == x.sid
  {
    WorkerConnection.DbConnectionRequest(x.dbType, x.host, x.port.value.Floor,
      x.database, x.serviceName, x.sid, x.username, x.password)
  }

  /** A target with text is truthy for the worker too. */
  lemma {:induction false} HasTextTruthy(s: Option<string>)
    requires HasText(s)
    ensures Truthy(s)
  {
    assert |Trim(s.value)| <= |TrimStart(s.value)| <= |s.value|;
  }

  /** Whatever the server's test schema accepts, the worker's validator accepts. */
  lemma {:induction false} WorkerAcceptsValidated(x: ConnectionInput)
    requires ValidConnection(x)
    ensures WorkerConnection.CheckRequest(ToWorker(x)).Ok?
  {
    var w := ToWorker(x);
    WorkerConnection.CheckRequestIff(w);
    if x.dbType == "oracle" {
      if HasText(x.serviceName) {
        HasTextTruthy(x.serviceName);
      } else {
        HasTextTruthy(x.sid);
      }
    } else {
      HasTextTruthy(x.database);
    }
  }

  /** The converse fails: a database of spaces passes the worker and not the server. */
  lemma {:induction false} BlankDatabaseExample()
    ensures var x := ConnectionInput("mysql", "h", Some(3306.0), Some(" "), None, None, "u", "p");
      && !ValidConnection(x)
      && WorkerConnection.CheckRequest(ToWorker(x)).Ok?
  {
    var x := ConnectionInput("mysql", "h", Some(3306.0), Some(" "), None, None, "u", "p");
    TrimEmptyIffBlank(" ");
  }
}
