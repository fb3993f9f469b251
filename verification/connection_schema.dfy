/**
 * The connection form's schema on the client (`connectionSchema.ts`): the
 * same field rules and refinement as the server's test schema, with the
 * form's own messages, and the default port of each database type.
 */
module ConnectionSchema {
  import opened Wrappers
  import opened Text
  import Dto = ConnectionsDto

  /** The form's values, with `port` coerced to a number (`None` for NaN). */
  datatype FormValues = FormValues(
    dbType: string,
    host: string,
    port: Option<real>,
    database: Option<string>,
    serviceName: Option<string>,
    sid: Option<string>,
    username: string,
    password: string)

  /** The form's messages, one per check; zod's own defaults for the type, integer and minimum checks. */
  datatype Message =
    | InvalidEnum | EnterHost | EnterNumber | NotInteger | TooSmall | PortRange
    | EnterUsername | EnterPassword | EnterDatabase | EnterServiceOrSid

  datatype Issue = Issue(path: Dto.Field, message: Message)

  /** The form's port checks: a number, an integer, at least 1, at most 65535. */
  function FormPortIssues(port: Option<real>): (r: seq<Issue>)
    ensures r == [] <==> Dto.PortOk(port)
    ensures forall i :: 0 <= i < |r| ==> r[i].path == Dto.Port
    ensures forall x :: x in r ==> x.path == Dto.Port
  {
    match port
    case None => [Issue(Dto.Port, EnterNumber)]
    case Some(p) =>
      (if Dto.IsInteger(p) then [] else [Issue(Dto.Port, NotInteger)])
      + (if p < 1.0 then [Issue(Dto.Port, TooSmall)] else [])
      + (if p > 65535.0 then [Issue(Dto.Port, PortRange)] else [])
  }

  function FormRequired(s: string, f: Dto.Field, m: Message): seq<Issue> {
    if s == "" then [Issue(f, m)] else []
  }

  /** The form's field checks, in the order of its fields. */
  function FormBase(v: FormValues): (r: seq<Issue>)
    ensures Issue(Dto.Database, EnterDatabase) !in r && Issue(Dto.ServiceName, EnterServiceOrSid) !in r
  {
    (if Dto.KnownDbType(v.dbType) then [] else [Issue(Dto.DbTypeField, InvalidEnum)])
    + FormRequired(v.host, Dto.Host, EnterHost)
    + FormPortIssues(v.port)
    + FormRequired(v.username, Dto.Username, EnterUsername)
    + FormRequired(v.password, Dto.Password, EnterPassword)
  }

  /** The form's refinement: the target a type needs. */
  function FormRefine(v: FormValues): seq<Issue> {
    (if (v.dbType == "mysql" || v.dbType == "mssql") && !Dto.HasText(v.database)
     then [Issue(Dto.Database, EnterDatabase)] else [])
    + (if v.dbType == "oracle" && !Dto.HasText(v.serviceName) && !Dto.HasText(v.sid)
       then [Issue(Dto.ServiceName, EnterServiceOrSid)] else [])
  }

  /**
   * `connectionSchema`: the field checks in field order, then the refinement
   * when no field check aborted the parse.
   */
  function FormIssues(v: FormValues): (r: seq<Issue>)
    ensures Issue(Dto.Database, EnterDatabase) in r <==>
      (v.dbType == "mysql" || v.dbType == "mssql") && v.port.Some? && !Dto.HasText(v.database)
    ensures Issue(Dto.ServiceName, EnterServiceOrSid) in r <==>
      v.dbType == "oracle" && v.port.Some? && !Dto.HasText(v.serviceName) && !Dto.HasText(v.sid)
  {
    var base := FormBase(v);
    var refine := if Dto.KnownDbType(v.dbType) && v.port.Some? then FormRefine(v) else [];
    base + refine
  }

  /** The request body the form's values are sent as. */
  function AsRequest(v: FormValues): Dto.ConnectionInput {
    Dto.ConnectionInput(v.dbType, v.host, v.port, v.database, v.serviceName, v.sid, v.username, v.password)
  }

  function Paths(issues: seq<Issue>): (r: seq<Dto.Field>)
    ensures |r| == |issues| && forall i :: 0 <= i < |issues| ==> r[i] == issues[i].path
  {
    if |issues| == 0 then [] else Paths(issues[..|issues| - 1]) + [issues[|issues| - 1].path]
  }

  function DtoPaths(issues: seq<Dto.Issue>): (r: seq<Dto.Field>)
    ensures |r| == |issues| && forall i :: 0 <= i < |issues| ==> r[i] == issues[i].path
  {
    if |issues| == 0 then [] else DtoPaths(issues[..|issues| - 1]) + [issues[|issues| - 1].path]
  }

  lemma {:induction false} PathsAppend(a: seq<Issue>, b: seq<Issue>)
    ensures Paths(a + b) == Paths(a) + Paths(b)
  {
  }

  lemma {:induction false} DtoPathsAppend(a: seq<Dto.Issue>, b: seq<Dto.Issue>)
    ensures DtoPaths(a + b) == DtoPaths(a) + DtoPaths(b)
  {
  }

  lemma {:induction false} PortPathsAgree(port: Option<real>)
    ensures Paths(FormPortIssues(port)) == DtoPaths(Dto.PortIssues(port))
  {
  }

  /** Two lists with the same paths, appended to two others with the same paths. */
  lemma {:induction false} AppendAgree(a: seq<Issue>, b: seq<Issue>, c: seq<Dto.Issue>, d: seq<Dto.Issue>)
    requires Paths(a) == DtoPaths(c) && Paths(b) == DtoPaths(d)
    ensures Paths(a + b) == DtoPaths(c + d)
  {
    PathsAppend(a, b);
    DtoPathsAppend(c, d);
  }

  lemma {:induction false} RequiredAgree(s: string, f: Dto.Field, m: Message, n: Dto.Message)
    ensures Paths(FormRequired(s, f, m)) == DtoPaths(Dto.Required(s, f, n))
  {
  }

  lemma {:induction false} BasePathsAgree(v: FormValues)
    ensures Paths(FormBase(v)) == DtoPaths(Dto.BaseIssues(AsRequest(v)))
  {
    var x := AsRequest(v);
    var a1 := if Dto.KnownDbType(v.dbType) then [] else [Issue(Dto.DbTypeField, InvalidEnum)];
    var a2 := FormRequired(v.host, Dto.Host, EnterHost);
    var a3 := FormPortIssues(v.port);
    var a4 := FormRequired(v.username, Dto.Username, EnterUsername);
    var a5 := FormRequired(v.password, Dto.Password, EnterPassword);
    var b1 := if Dto.KnownDbType(x.dbType) then [] else [Dto.Issue(Dto.DbTypeField, Dto.DbTypeChoice)];
    var b2 := Dto.Required(x.host, Dto.Host, Dto.HostRequired);
    var b3 := Dto.PortIssues(x.port);
    var b4 := Dto.Required(x.username, Dto.Username, Dto.UsernameRequired);
    var b5 := Dto.Required(x.password, Dto.Password, Dto.PasswordRequired);
    assert Paths(a1) == DtoPaths(b1);
    RequiredAgree(v.host, Dto.Host, EnterHost, Dto.HostRequired);
    PortPathsAgree(v.port);
    RequiredAgree(v.username, Dto.Username, EnterUsername, Dto.UsernameRequired);
    RequiredAgree(v.password, Dto.Password, EnterPassword, Dto.PasswordRequired);
    AppendAgree(a1, a2, b1, b2);
    AppendAgree(a1 + a2, a3, b1 + b2, b3);
    AppendAgree(a1 + a2 + a3, a4, b1 + b2 + b3, b4);
    AppendAgree(a1 + a2 + a3 + a4, a5, b1 + b2 + b3 + b4, b5);
  }

  lemma {:induction false} RefinePathsAgree(v: FormValues)
    ensures Paths(FormRefine(v)) == DtoPaths(Dto.RefineIssues(AsRequest(v)))
  {
    var x := AsRequest(v);
    var a1 := if (v.dbType == "mysql" || v.dbType == "mssql") && !Dto.HasText(v.database)
      then [Issue(Dto.Database, EnterDatabase)] else [];
    var a2 := if v.dbType == "oracle" && !Dto.HasText(v.serviceName) && !Dto.HasText(v.sid)
      then [Issue(Dto.ServiceName, EnterServiceOrSid)] else [];
    var b1 := if (x.dbType == "mysql" || x.dbType == "mssql") && !Dto.HasText(x.database)
      then [Dto.Issue(Dto.Database, Dto.DatabaseRequired)] else [];
    var b2 := if x.dbType == "oracle" && !Dto.HasText(x.serviceName) && !Dto.HasText(x.sid)
      then [Dto.Issue(Dto.ServiceName, Dto.OracleTargetRequired)] else [];
    PathsAppend(a1, a2);
    DtoPathsAppend(b1, b2);
  }

  /**
   * The form and the server's test schema report issues on the same fields
   * in the same order, so the form accepts exactly the bodies the server
   * accepts; only the messages differ.
   */
  lemma {:induction false} SameRulesAsServer(v: FormValues)
    ensures Paths(FormIssues(v)) == DtoPaths(Dto.TestIssues(AsRequest(v)))
    ensures FormIssues(v) == [] <==> Dto.ValidConnection(AsRequest(v))
  {
    SamePaths(v);
    assert |FormIssues(v)| == |Dto.TestIssues(AsRequest(v))| by {
      assert |Paths(FormIssues(v))| == |DtoPaths(Dto.TestIssues(AsRequest(v)))|;
    }
  }

  lemma {:induction false} SamePaths(v: FormValues)
    ensures Paths(FormIssues(v)) == DtoPaths(Dto.TestIssues(AsRequest(v)))
  {
    var x := AsRequest(v);
    BasePathsAgree(v);
    var refine := if Dto.KnownDbType(v.dbType) && v.port.Some? then FormRefine(v) else [];
    var dtoRefine := if Dto.KnownDbType(x.dbType) && x.port.Some? then Dto.RefineIssues(x) else [];
    assert Paths(refine) == DtoPaths(dtoRefine) by {
      RefinePathsAgree(v);
    }
    PathsAppend(FormBase(v), refine);
    DtoPathsAppend(Dto.BaseIssues(x), dtoRefine);
    assert FormIssues(v) == FormBase(v) + refine;
    assert Dto.TestIssues(x) == Dto.BaseIssues(x) + dtoRefine;
  }

  // ------------------------------------------------------------ default ports

  /** `DEFAULT_PORTS`. */
  const DEFAULT_PORTS: map<string, int> := map["mysql" := 3306, "mssql" := 1433, "oracle" := 1521]

  /** There is a default port for exactly the three types, and each passes the port rule. */
  lemma {:induction false} DefaultPortsValid()
    ensures forall t :: t in DEFAULT_PORTS <==> Dto.KnownDbType(t)
    ensures forall t :: t in DEFAULT_PORTS ==> Dto.PortOk(Some(DEFAULT_PORTS[t] as real))
  {
  }
}
