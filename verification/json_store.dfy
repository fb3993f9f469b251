/**
 * The in-memory part of the JSON store: the users list and the projects map,
 * each project file holding its connections, snapshots and graphs. The map is
 * kept as a sequence of project files in insertion order, keyed by the
 * project's id; generated ids and timestamps are parameters.
 */
module Store {
  import opened Wrappers
  import opened Text
  import opened Schema

  datatype Role = ADMIN | USER | VIEWER

  datatype UserRecord = UserRecord(
    id: string,
    loginId: string,
    password: string,
    role: Role,
    mustChangePassword: bool,
    createdAt: string,
    updatedAt: string)

  datatype ProjectRecord = ProjectRecord(
    id: string,
    projectName: string,
    description: Option<string>,
    ownerId: string,
    createdAt: string,
    updatedAt: string)

  datatype DbType = MySql | MsSql | OracleDb

  datatype ConnectionRecord = ConnectionRecord(
    id: string,
    projectId: string,
    connectionName: string,
    dbType: DbType,
    host: string,
    port: int,
    database: Option<string>,
    serviceName: Option<string>,
    sid: Option<string>,
    username: string,
    password: string,
    createdAt: string)

  datatype SnapshotRecord = SnapshotRecord(
    id: string,
    projectId: string,
    connectionId: string,
    extractedAt: string,
    schemaName: string,
    tableCount: int,
    columnCount: int,
    fkCount: int,
    tables: seq<Table>)

  datatype GraphRecord = GraphRecord(id: string, projectId: string, extractedAt: string, graph: ErdGraph)

  datatype ProjectFile = ProjectFile(
    project: ProjectRecord,
    connections: seq<ConnectionRecord>,
    snapshots: seq<SnapshotRecord>,
    graphs: seq<GraphRecord>)

  // ------------------------------------------------------------ searching

  /** `findIndex`: the first index whose element satisfies `p`, or -1. */
  function FirstIndex<T>(s: seq<T>, p: T -> bool): (r: int)
    ensures -1 <= r < |s|
    ensures r >= 0 ==> p(s[r])
    ensures forall j :: 0 <= j < |s| && (r < 0 || j < r) ==> !p(s[j])
  {
    if |s| == 0 then -1
    else if p(s[0]) then 0
    else
      var r := FirstIndex(s[1..], p);
      if r < 0 then -1 else r + 1
  }

  /** The first match is where `p` first holds. */
  lemma {:induction false} FirstIndexAt<T>(s: seq<T>, p: T -> bool, i: int)
    requires 0 <= i < |s| && p(s[i]) && forall j :: 0 <= j < i ==> !p(s[j])
    ensures FirstIndex(s, p) == i
  {
  }

  function UserHasId(id: string): UserRecord -> bool {
    (u: UserRecord) => u.id == id
  }

  function UserHasLogin(loginId: string): UserRecord -> bool {
    (u: UserRecord) => u.loginId == loginId
  }

  function FileHasId(id: string): ProjectFile -> bool {
    (f: ProjectFile) => f.project.id == id
  }

  function ConnHasId(id: string): ConnectionRecord -> bool {
    (c: ConnectionRecord) => c.id == id
  }

  /** A project file holding a connection with the id. */
  function FileHasConn(id: string): ProjectFile -> bool {
    (f: ProjectFile) => FirstIndex(f.connections, ConnHasId(id)) >= 0
  }

  /** `find(...) ?? null`. */
  function FirstMatch<T>(s: seq<T>, p: T -> bool): (r: Option<T>)
    ensures r.None? <==> forall j :: 0 <= j < |s| ==> !p(s[j])
    ensures r.Some? ==> r.value in s && p(r.value)
  {
    var i := FirstIndex(s, p);
    if i < 0 then None else Some(s[i])
  }

  // ------------------------------------------------------------ users

  /** `saveUser`: replace the first user with the same id, else append. */
  function UpsertUser(users: seq<UserRecord>, user: UserRecord): seq<UserRecord> {
    var i := FirstIndex(users, UserHasId(user.id));
    if i >= 0 then users[i := user] else users + [user]
  }

  /**
   * After `saveUser`, the user is found by its id; every user with another id
   * is unchanged and in place; the list grows only when the id was new.
   */
  lemma {:induction false} UpsertUserSpec(users: seq<UserRecord>, user: UserRecord)
    ensures var after := UpsertUser(users, user);
      && FirstMatch(after, UserHasId(user.id)) == Some(user)
      && (FirstMatch(users, UserHasId(user.id)).Some? ==> |after| == |users|)
      && (FirstMatch(users, UserHasId(user.id)).None? ==> after == users + [user])
      && forall j :: 0 <= j < |users| && users[j].id != user.id ==> after[j] == users[j]
  {
    var i := FirstIndex(users, UserHasId(user.id));
    var after := UpsertUser(users, user);
    if i >= 0 {
      FirstIndexAt(after, UserHasId(user.id), i);
    } else {
      FirstIndexAt(after, UserHasId(user.id), |users|);
    }
  }

  // ------------------------------------------------------------ projects

  /** `projects.set(id, file)`: replace the file with that id in place, else append. */
  function SetFile(files: seq<ProjectFile>, f: ProjectFile): seq<ProjectFile> {
    var i := FirstIndex(files, FileHasId(f.project.id));
    if i >= 0 then files[i := f] else files + [f]
  }

  /** Project ids are pairwise distinct, as keys of a map are. */
  predicate DistinctIds(files: seq<ProjectFile>) {
    forall i, j :: 0 <= i < j < |files| ==> files[i].project.id != files[j].project.id
  }

  /** `set` keeps the keys distinct and makes the new file the one found by its id. */
  lemma {:induction false} SetFileSpec(files: seq<ProjectFile>, f: ProjectFile)
    requires DistinctIds(files)
    ensures DistinctIds(SetFile(files, f))
    ensures FirstMatch(SetFile(files, f), FileHasId(f.project.id)) == Some(f)
    ensures forall id :: id != f.project.id ==>
      FirstMatch(SetFile(files, f), FileHasId(id)) == FirstMatch(files, FileHasId(id))
  {
    SetFileDistinct(files, f);
    SetFileFinds(files, f);
    forall id | id != f.project.id
      ensures FirstMatch(SetFile(files, f), FileHasId(id)) == FirstMatch(files, FileHasId(id))
    {
      SetFileOther(files, f, id);
    }
  }

  /** Replacing one file by a file with the same project id keeps the ids distinct. */
  lemma {:induction false} PatchKeepsIds(files: seq<ProjectFile>, i: int, f: ProjectFile)
    requires DistinctIds(files) && 0 <= i < |files| && f.project.id == files[i].project.id
    ensures DistinctIds(files[i := f])
  {
    var after := files[i := f];
    forall a, b | 0 <= a < b < |after| ensures after[a].project.id != after[b].project.id {
      assert after[a].project.id == files[a].project.id;
      assert after[b].project.id == files[b].project.id;
    }
  }

  lemma {:induction false} SetFileDistinct(files: seq<ProjectFile>, f: ProjectFile)
    requires DistinctIds(files)
    ensures DistinctIds(SetFile(files, f))
  {
    var i := FirstIndex(files, FileHasId(f.project.id));
    var after := SetFile(files, f);
    forall a, b | 0 <= a < b < |after| ensures after[a].project.id != after[b].project.id {
      if i >= 0 {
        if a != i && b != i {
          assert after[a] == files[a] && after[b] == files[b];
        } else if a == i {
          assert after[b] == files[b] && files[i].project.id == f.project.id;
        } else {
          assert after[a] == files[a] && files[i].project.id == f.project.id;
        }
      } else if b < |files| {
        assert after[a] == files[a] && after[b] == files[b];
      } else {
        assert after[a] == files[a] && !FileHasId(f.project.id)(files[a]);
      }
    }
  }

  lemma {:induction false} SetFileFinds(files: seq<ProjectFile>, f: ProjectFile)
    ensures FirstMatch(SetFile(files, f), FileHasId(f.project.id)) == Some(f)
  {
    var p := FileHasId(f.project.id);
    var i := FirstIndex(files, p);
    var after := SetFile(files, f);
    if i >= 0 {
      forall j | 0 <= j < i ensures !p(after[j]) {
        assert after[j] == files[j];
      }
      FirstIndexAt(after, p, i);
    } else {
      forall j | 0 <= j < |files| ensures !p(after[j]) {
        assert after[j] == files[j];
      }
      FirstIndexAt(after, p, |files|);
    }
  }

  lemma {:induction false} SetFileOther(files: seq<ProjectFile>, f: ProjectFile, id: string)
    requires DistinctIds(files) && id != f.project.id
    ensures FirstMatch(SetFile(files, f), FileHasId(id)) == FirstMatch(files, FileHasId(id))
  {
    var p := FileHasId(id);
    var i := FirstIndex(files, FileHasId(f.project.id));
    var after := SetFile(files, f);
    var k := FirstIndex(files, p);
    assert forall j :: 0 <= j < |files| && j != i ==> after[j] == files[j];
    if k >= 0 {
      assert k != i;
      FirstIndexAt(after, p, k);
    } else {
      forall j | 0 <= j < |after| ensures !p(after[j]) {
        if j < |files| && j != i {
          assert after[j] == files[j];
        }
      }
      FirstIndexNone(after, p);
    }
  }

  lemma {:induction false} FirstIndexNone<T>(s: seq<T>, p: T -> bool)
    requires forall j :: 0 <= j < |s| ==> !p(s[j])
    ensures FirstIndex(s, p) < 0
  {
  }

  /** `updateProject` on the file list: only the supplied fields and `updatedAt` change. */
  function UpdatedProject(p: ProjectRecord, name: Option<string>, description: Option<string>, now: string): (q: ProjectRecord)
    ensures q.id == p.id && q.ownerId == p.ownerId && q.createdAt == p.createdAt && q.updatedAt == now
    ensures q.projectName == (if name.Some? then name.value else p.projectName)
    ensures q.description == (if description.Some? then description else p.description)
  {
    var p1 := if name.Some? then p.(projectName := name.value) else p;
    var p2 := if description.Some? then p1.(description := description) else p1;
    p2.(updatedAt := now)
  }

  // ------------------------------------------------------------ connections

  /** All connections, project by project in map order. */
  function AllConnections(files: seq<ProjectFile>): seq<ConnectionRecord> {
    if |files| == 0 then [] else AllConnections(files[..|files| - 1]) + files[|files| - 1].connections
  }

  lemma {:induction false} AllConnectionsAppend(a: seq<ProjectFile>, b: seq<ProjectFile>)
    ensures AllConnections(a + b) == AllConnections(a) + AllConnections(b)
    decreases |b|
  {
    if |b| == 0 {
      assert a + b == a;
    } else {
      var init, last := b[..|b| - 1], b[|b| - 1];
      var ab := a + b;
      assert ab[..|ab| - 1] == a + init;
      assert ab[|ab| - 1] == last;
      assert AllConnections(ab) == AllConnections(a + init) + last.connections;
      assert AllConnections(b) == AllConnections(init) + last.connections;
      AllConnectionsAppend(a, init);
    }
  }

  /** `findConnectionById`: the first project holding the id, and its first such connection. */
  function FindConnection(files: seq<ProjectFile>, id: string): Option<ConnectionRecord> {
    var k := FirstIndex(files, FileHasConn(id));
    if k < 0 then None else FirstMatch(files[k].connections, ConnHasId(id))
  }

  /** The connection found is the first with that id among all connections, in map order. */
  lemma {:induction false} FindConnectionFirst(files: seq<ProjectFile>, id: string)
    ensures FindConnection(files, id) == FirstMatch(AllConnections(files), ConnHasId(id))
  {
    var k := FirstIndex(files, FileHasConn(id));
    if k < 0 {
      NoHolder(files, id);
    } else {
      HolderMatch(files, id, k);
    }
  }

  /** The first match in the first holder is the first match among all connections. */
  lemma {:induction false} HolderMatch(files: seq<ProjectFile>, id: string, k: int)
    requires k == FirstIndex(files, FileHasConn(id)) && k >= 0
    ensures FirstMatch(files[k].connections, ConnHasId(id)) == FirstMatch(AllConnections(files), ConnHasId(id))
  {
    var i := FirstIndex(files[k].connections, ConnHasId(id));
    FirstHolder(files, id, k, i);
    HolderAt(files, id, k, i);
    MatchAtIndex(files[k].connections, ConnHasId(id), i);
    MatchAtIndex(AllConnections(files), ConnHasId(id), |AllConnections(files[..k])| + i);
  }

  /** The holder's first match sits, among all connections, after those of the projects before it. */
  lemma {:induction false} HolderAt(files: seq<ProjectFile>, id: string, k: int, i: int)
    requires 0 <= k < |files| && FileHasConn(id)(files[k])
    requires i == FirstIndex(files[k].connections, ConnHasId(id))
    ensures 0 <= i < |files[k].connections|
    ensures |AllConnections(files[..k])| + i < |AllConnections(files)|
    ensures AllConnections(files)[|AllConnections(files[..k])| + i] == files[k].connections[i]
  {
    AllConnectionsPatch(files, k, files[k]);
    Rename(AllConnections(files[..k]), files[k].connections, AllConnections(files[k + 1..]), i, files[k].connections[i]);
  }

  /** The first match is the element at the first index. */
  lemma {:induction false} MatchAtIndex<T>(s: seq<T>, p: T -> bool, i: int)
    requires 0 <= i < |s| && FirstIndex(s, p) == i
    ensures FirstMatch(s, p) == Some(s[i])
  {
  }

  /** `deleteConnection`: splice out the first connection with the id. */
  function DeleteConnection(files: seq<ProjectFile>, id: string): seq<ProjectFile> {
    var k := FirstIndex(files, FileHasConn(id));
    if k < 0 then files
    else
      var cs := files[k].connections;
      var i := FirstIndex(cs, ConnHasId(id));
      files[k := files[k].(connections := cs[..i] + cs[i + 1..])]
  }

  /** `updateConnection`: rename the first connection with the id. */
  function RenameConnection(files: seq<ProjectFile>, id: string, name: string): seq<ProjectFile> {
    var k := FirstIndex(files, FileHasConn(id));
    if k < 0 then files
    else
      var cs := files[k].connections;
      var i := FirstIndex(cs, ConnHasId(id));
      files[k := files[k].(connections := cs[i := cs[i].(connectionName := name)])]
  }

  lemma {:induction false} AllConnectionsPatch(files: seq<ProjectFile>, k: int, f: ProjectFile)
    requires 0 <= k < |files|
    ensures AllConnections(files) == AllConnections(files[..k]) + files[k].connections + AllConnections(files[k + 1..])
    ensures AllConnections(files[k := f]) == AllConnections(files[..k]) + f.connections + AllConnections(files[k + 1..])
  {
    assert files == files[..k] + [files[k]] + files[k + 1..];
    assert files[k := f] == files[..k] + [f] + files[k + 1..];
    AllConnectionsAppend(files[..k] + [files[k]], files[k + 1..]);
    AllConnectionsAppend(files[..k], [files[k]]);
    AllConnectionsAppend(files[..k] + [f], files[k + 1..]);
    AllConnectionsAppend(files[..k], [f]);
    assert AllConnections([files[k]]) == files[k].connections by {
      assert [files[k]][..0] == [];
    }
    assert AllConnections([f]) == f.connections by {
      assert [f][..0] == [];
    }
  }

  /** Where the first connection with the id sits in the list of all connections. */
  lemma {:induction false} FirstHolder(files: seq<ProjectFile>, id: string, k: int, i: int)
    requires k == FirstIndex(files, FileHasConn(id)) && k >= 0
    requires i == FirstIndex(files[k].connections, ConnHasId(id))
    ensures AllConnections(files) == AllConnections(files[..k]) + files[k].connections + AllConnections(files[k + 1..])
    ensures FirstIndex(AllConnections(files), ConnHasId(id)) == |AllConnections(files[..k])| + i
  {
    AllConnectionsPatch(files, k, files[k]);
    FirstIndexNoneBefore(files, id, k);
    assert FileHasConn(id)(files[k]);
    FirstInMiddle(AllConnections(files[..k]), files[k].connections, AllConnections(files[k + 1..]), ConnHasId(id), i);
  }

  /** The first match in a middle part, when the part before has none, is the first match overall. */
  lemma {:induction false} FirstInMiddle<T>(pre: seq<T>, cs: seq<T>, post: seq<T>, p: T -> bool, i: int)
    requires forall j :: 0 <= j < |pre| ==> !p(pre[j])
    requires i == FirstIndex(cs, p) && i >= 0
    ensures FirstIndex(pre + cs + post, p) == |pre| + i
  {
    var all := pre + cs + post;
    assert all[|pre| + i] == cs[i];
    forall j | 0 <= j < |pre| + i ensures !p(all[j]) {
      if j >= |pre| {
        assert all[j] == cs[j - |pre|];
      } else {
        assert all[j] == pre[j];
      }
    }
    FirstIndexAt(all, p, |pre| + i);
  }

  /**
   * Deleting removes exactly the first connection with the id from the list of
   * all connections (and leaves the rest in order); with no such connection
   * nothing changes.
   */
  lemma {:induction false} DeleteConnectionSpec(files: seq<ProjectFile>, id: string)
    ensures FirstIndex(AllConnections(files), ConnHasId(id)) < 0 ==> DeleteConnection(files, id) == files
    ensures var all := AllConnections(files);
      var n := FirstIndex(all, ConnHasId(id));
      n >= 0 ==> AllConnections(DeleteConnection(files, id)) == all[..n] + all[n + 1..]
  {
    var k := FirstIndex(files, FileHasConn(id));
    if k < 0 {
      NoHolder(files, id);
    } else {
      DeleteFound(files, id, k, FirstIndex(files[k].connections, ConnHasId(id)));
    }
  }

  lemma {:induction false} DeleteFound(files: seq<ProjectFile>, id: string, k: int, i: int)
    requires k == FirstIndex(files, FileHasConn(id)) && k >= 0
    requires i == FirstIndex(files[k].connections, ConnHasId(id))
    ensures i >= 0
    ensures var all := AllConnections(files);
      var n := |AllConnections(files[..k])| + i;
      && n == FirstIndex(all, ConnHasId(id))
      && AllConnections(DeleteConnection(files, id)) == all[..n] + all[n + 1..]
  {
    assert FileHasConn(id)(files[k]);
    var cs := files[k].connections;
    var f := files[k].(connections := cs[..i] + cs[i + 1..]);
    assert DeleteConnection(files, id) == files[k := f];
    FirstHolder(files, id, k, i);
    PatchSplice(files, k, i, f);
  }

  lemma {:induction false} PatchSplice(files: seq<ProjectFile>, k: int, i: int, f: ProjectFile)
    requires 0 <= k < |files| && 0 <= i < |files[k].connections|
    requires f.connections == files[k].connections[..i] + files[k].connections[i + 1..]
    ensures var all := AllConnections(files);
      var n := |AllConnections(files[..k])| + i;
      n < |all| && AllConnections(files[k := f]) == all[..n] + all[n + 1..]
  {
    var pre, cs, post := AllConnections(files[..k]), files[k].connections, AllConnections(files[k + 1..]);
    AllConnectionsPatch(files, k, f);
    Splice(pre, cs, post, i, f.connections, AllConnections(files), AllConnections(files[k := f]));
  }

  lemma {:induction false} Splice<T>(pre: seq<T>, cs: seq<T>, post: seq<T>, i: int, rest: seq<T>, all: seq<T>, after: seq<T>)
    requires 0 <= i < |cs| && rest == cs[..i] + cs[i + 1..]
    requires all == pre + cs + post && after == pre + rest + post
    ensures |pre| + i < |all| && after == all[..|pre| + i] + all[|pre| + i + 1..]
  {
    assert all[..|pre| + i] == pre + cs[..i];
    assert all[|pre| + i + 1..] == cs[i + 1..] + post;
  }


  /** Without a project holding the id, no connection has it. */
  lemma {:induction false} NoHolder(files: seq<ProjectFile>, id: string)
    requires FirstIndex(files, FileHasConn(id)) < 0
    ensures FirstIndex(AllConnections(files), ConnHasId(id)) < 0
  {
    FirstIndexNoneBefore(files, id, |files|);
    assert files[..|files|] == files;
  }

  /** No project before the first holder has a connection with the id. */
  lemma {:induction false} FirstIndexNoneBefore(files: seq<ProjectFile>, id: string, k: int)
    requires 0 <= k <= |files| && forall j :: 0 <= j < k ==> !FileHasConn(id)(files[j])
    ensures forall j :: 0 <= j < |AllConnections(files[..k])| ==> !ConnHasId(id)(AllConnections(files[..k])[j])
  {
    if k > 0 {
      var pre := files[..k - 1];
      assert files[..k][..k - 1] == pre;
      FirstIndexNoneBefore(files, id, k - 1);
      assert AllConnections(files[..k]) == AllConnections(pre) + files[k - 1].connections;
    }
  }

  /** Renaming changes the name of the connection found by the id, and only that. */
  lemma {:induction false} RenameConnectionSpec(files: seq<ProjectFile>, id: string, name: string)
    ensures FirstIndex(AllConnections(files), ConnHasId(id)) < 0 ==> RenameConnection(files, id, name) == files
    ensures var all := AllConnections(files);
      var n := FirstIndex(all, ConnHasId(id));
      n >= 0 ==> AllConnections(RenameConnection(files, id, name)) == all[n := all[n].(connectionName := name)]
  {
    var k := FirstIndex(files, FileHasConn(id));
    if k < 0 {
      NoHolder(files, id);
    } else {
      RenameFound(files, id, name, k, FirstIndex(files[k].connections, ConnHasId(id)));
    }
  }

  lemma {:induction false} RenameFound(files: seq<ProjectFile>, id: string, name: string, k: int, i: int)
    requires k == FirstIndex(files, FileHasConn(id)) && k >= 0
    requires i == FirstIndex(files[k].connections, ConnHasId(id))
    ensures i >= 0
    ensures var all := AllConnections(files);
      var n := |AllConnections(files[..k])| + i;
      && n == FirstIndex(all, ConnHasId(id)) && 0 <= n < |all|
      && AllConnections(RenameConnection(files, id, name)) == all[n := all[n].(connectionName := name)]
  {
    assert FileHasConn(id)(files[k]);
    var cs := files[k].connections;
    var f := files[k].(connections := cs[i := cs[i].(connectionName := name)]);
    assert RenameConnection(files, id, name) == files[k := f];
    AllConnectionsPatch(files, k, f);
    FirstHolder(files, id, k, i);
    var pre, post := AllConnections(files[..k]), AllConnections(files[k + 1..]);
    var all := AllConnections(files);
    assert all == pre + cs + post;
    Rename(pre, cs, post, i, cs[i].(connectionName := name));
    assert all[|pre| + i] == cs[i];
    assert AllConnections(files[k := f]) == pre + f.connections + post;
  }

  lemma {:induction false} Rename<T>(pre: seq<T>, cs: seq<T>, post: seq<T>, i: int, c: T)
    requires 0 <= i < |cs|
    ensures (pre + cs + post)[|pre| + i := c] == pre + cs[i := c] + post
    ensures (pre + cs + post)[|pre| + i] == cs[i]
  {
  }

  // ------------------------------------------------------------ latest records

  /**
   * `[...s].sort((a, b) => key(b).localeCompare(key(a)))[0]`: the stable
   * descending sort puts first the earliest record whose key is greatest.
   */
  function Latest<T>(s: seq<T>, key: T -> string): Option<T> {
    if |s| == 0 then None
    else
      var rest := Latest(s[1..], key);
      if rest.Some? && Less(key(s[0]), key(rest.value)) then rest else Some(s[0])
  }

  /**
   * `Latest` is `None` only for an empty list; otherwise it is an element
   * whose key no other key exceeds, and every earlier element has a smaller key.
   */
  lemma {:induction false} LatestSpec<T>(s: seq<T>, key: T -> string)
    ensures Latest(s, key).None? <==> |s| == 0
    ensures Latest(s, key).Some? ==>
      exists i :: 0 <= i < |s| && s[i] == Latest(s, key).value
        && (forall j :: 0 <= j < |s| ==> !Less(key(s[i]), key(s[j])))
        && (forall j :: 0 <= j < i ==> Less(key(s[j]), key(s[i])))
    decreases |s|
  {
    if |s| > 0 {
      var rest := Latest(s[1..], key);
      LatestSpec(s[1..], key);
      if rest.Some? && Less(key(s[0]), key(rest.value)) {
        var i :| 0 <= i < |s[1..]| && s[1..][i] == rest.value
          && (forall j :: 0 <= j < |s[1..]| ==> !Less(key(s[1..][i]), key(s[1..][j])))
          && (forall j :: 0 <= j < i ==> Less(key(s[1..][j]), key(s[1..][i])));
        forall j | 0 <= j < |s| ensures !Less(key(s[i + 1]), key(s[j])) {
          if j == 0 {
            LessAsymmetric(key(s[0]), key(s[i + 1]));
          } else {
            assert s[j] == s[1..][j - 1];
          }
        }
        forall j | 0 <= j < i + 1 ensures Less(key(s[j]), key(s[i + 1])) {
          if j > 0 {
            assert s[j] == s[1..][j - 1];
          }
        }
      } else {
        forall j | 0 <= j < |s| ensures !Less(key(s[0]), key(s[j])) {
          if j > 0 {
            var i :| 0 <= i < |s[1..]| && s[1..][i] == rest.value
              && (forall j :: 0 <= j < |s[1..]| ==> !Less(key(s[1..][i]), key(s[1..][j])));
            assert !Less(key(s[0]), key(rest.value));
            assert !Less(key(rest.value), key(s[j])) by {
              assert s[j] == s[1..][j - 1];
            }
            if Less(key(s[0]), key(s[j])) {
              LessNotAfter(key(s[0]), key(rest.value), key(s[j]));
            }
          } else {
            LessIrreflexive(key(s[0]));
          }
        }
      }
    }
  }

  /** `a < c` and `!(b < c)` with `!(a < b)` cannot all hold. */
  lemma {:induction false} LessNotAfter(a: string, b: string, c: string)
    requires !Less(a, b) && !Less(b, c)
    ensures !Less(a, c)
  {
    if a != b && b != c && Less(a, c) {
      LessTotal(a, b);
      LessTotal(b, c);
      LessTransitive(b, a, c);
    } else if a == b {
    } else if b == c {
    }
  }

  function SnapshotTime(s: SnapshotRecord): string {
    s.extractedAt
  }

  function GraphTime(g: GraphRecord): string {
    g.extractedAt
  }

  // ------------------------------------------------------------ the store

  class JsonStore {
    var users: seq<UserRecord>
    var projects: seq<ProjectFile>

    predicate Valid()
      reads this
    {
      DistinctIds(projects)
    }

    constructor()
      ensures users == [] && projects == [] && Valid()
    {
      users := [];
      projects := [];
    }

    function FindUserByLogin(loginId: string): Option<UserRecord>
      reads this
    {
      FirstMatch(users, UserHasLogin(loginId))
    }

    function FindUserById(id: string): Option<UserRecord>
      reads this
    {
      FirstMatch(users, UserHasId(id))
    }

    method SaveUser(user: UserRecord)
      requires Valid()
      modifies this
      ensures Valid()
      ensures users == UpsertUser(old(users), user) && projects == old(projects)
    {
      var idx := FirstIndex(users, UserHasId(user.id));
      if idx >= 0 {
        users := users[idx := user];
      } else {
        users := users + [user];
      }
    }

    function ListProjects(): (r: seq<ProjectRecord>)
      reads this
      ensures |r| == |projects| && forall i :: 0 <= i < |r| ==> r[i] == projects[i].project
    {
      seq(|projects|, i reads this requires 0 <= i < |projects| => projects[i].project)
    }

    function GetProject(projectId: string): Option<ProjectRecord>
      reads this
    {
      var f := FirstMatch(projects, FileHasId(projectId));
      if f.Some? then Some(f.value.project) else None
    }

    /** `id` and `now` stand for the generated id and the clock. */
    method CreateProject(id: string, projectName: string, description: Option<string>, ownerId: string, now: string)
      returns (project: ProjectRecord)
      requires Valid()
      modifies this
      ensures Valid()
      ensures project == ProjectRecord(id, projectName, Some(description.GetOr("")), ownerId, now, now)
      ensures projects == SetFile(old(projects), ProjectFile(project, [], [], [])) && users == old(users)
      ensures GetProject(id) == Some(project)
    {
      project := ProjectRecord(id, projectName, Some(description.GetOr("")), ownerId, now, now);
      var file := ProjectFile(project, [], [], []);
      SetFileSpec(projects, file);
      var i := FirstIndex(projects, FileHasId(id));
      if i >= 0 {
        projects := projects[i := file];
      } else {
        projects := projects + [file];
      }
    }

    method UpdateProject(projectId: string, name: Option<string>, description: Option<string>, now: string)
      returns (r: Option<ProjectRecord>)
      requires Valid()
      modifies this
      ensures Valid()
      ensures users == old(users)
      ensures var i := FirstIndex(old(projects), FileHasId(projectId));
        && (i < 0 ==> r.None? && projects == old(projects))
        && (i >= 0 ==> var p := UpdatedProject(old(projects)[i].project, name, description, now);
              r == Some(p) && projects == old(projects)[i := old(projects)[i].(project := p)])
    {
      var i := FirstIndex(projects, FileHasId(projectId));
      if i < 0 {
        return None;
      }
      var file := projects[i];
      var p := file.project;
      if name.Some? {
        p := p.(projectName := name.value);
      }
      if description.Some? {
        p := p.(description := description);
      }
      p := p.(updatedAt := now);
      PatchKeepsIds(projects, i, file.(project := p));
      projects := projects[i := file.(project := p)];
      r := Some(p);
    }

    /** `listConnections`: every project's connections pushed in map order. */
    method ListConnections() returns (all: seq<ConnectionRecord>)
      ensures all == AllConnections(projects)
    {
      all := [];
      for i := 0 to |projects|
        invariant all == AllConnections(projects[..i])
      {
        assert projects[..i + 1][..i] == projects[..i];
        all := all + projects[i].connections;
      }
      assert projects[..|projects|] == projects;
    }

    method FindConnectionById(connectionId: string) returns (r: Option<ConnectionRecord>)
      ensures r == FindConnection(projects, connectionId)
    {
      for i := 0 to |projects|
        invariant forall j :: 0 <= j < i ==> !FileHasConn(connectionId)(projects[j])
      {
        var found := FirstMatch(projects[i].connections, ConnHasId(connectionId));
        if found.Some? {
          FirstIndexAt(projects, FileHasConn(connectionId), i);
          return found;
        }
      }
      return None;
    }

    /** `id` and `now` stand for the generated id and the clock. */
    method CreateConnection(projectId: string, connectionName: string, dbType: DbType, host: string, port: int,
                            database: Option<string>, serviceName: Option<string>, sid: Option<string>,
                            username: string, password: string, id: string, now: string)
      returns (r: Option<ConnectionRecord>)
      requires Valid()
      modifies this
      ensures Valid()
      ensures users == old(users)
      ensures var i := FirstIndex(old(projects), FileHasId(projectId));
        && (i < 0 ==> r.None? && projects == old(projects))
        && (i >= 0 ==>
              (r.Some? && r.value.projectId == projectId && r.value.id == id
               && r.value == ConnectionRecord(id, projectId, connectionName, dbType, host, port,
                                              database, serviceName, sid, username, password, now)
               && projects == old(projects)[i := old(projects)[i].(connections := old(projects)[i].connections + [r.value])]))
    {
      var i := FirstIndex(projects, FileHasId(projectId));
      if i < 0 {
        return None;
      }
      var c := ConnectionRecord(id, projectId, connectionName, dbType, host, port,
                                database, serviceName, sid, username, password, now);
      PatchKeepsIds(projects, i, projects[i].(connections := projects[i].connections + [c]));
      projects := projects[i := projects[i].(connections := projects[i].connections + [c])];
      r := Some(c);
    }

    method DeleteConnectionById(connectionId: string) returns (deleted: bool)
      requires Valid()
      modifies this
      ensures Valid()
      ensures deleted <==> FindConnection(old(projects), connectionId).Some?
      ensures projects == DeleteConnection(old(projects), connectionId) && users == old(users)
    {
      for i := 0 to |projects|
        invariant forall j :: 0 <= j < i ==> !FileHasConn(connectionId)(projects[j])
      {
        var idx := FirstIndex(projects[i].connections, ConnHasId(connectionId));
        if idx >= 0 {
          FirstIndexAt(projects, FileHasConn(connectionId), i);
          var cs := projects[i].connections;
          PatchKeepsIds(projects, i, projects[i].(connections := cs[..idx] + cs[idx + 1..]));
          projects := projects[i := projects[i].(connections := cs[..idx] + cs[idx + 1..])];
          return true;
        }
      }
      return false;
    }

    method UpdateConnection(connectionId: string, connectionName: string) returns (r: Option<ConnectionRecord>)
      requires Valid()
      modifies this
      ensures Valid()
      ensures r == (if FindConnection(old(projects), connectionId).Some?
                    then Some(FindConnection(old(projects), connectionId).value.(connectionName := connectionName))
                    else None)
      ensures projects == RenameConnection(old(projects), connectionId, connectionName) && users == old(users)
    {
      for i := 0 to |projects|
        invariant forall j :: 0 <= j < i ==> !FileHasConn(connectionId)(projects[j])
      {
        var idx := FirstIndex(projects[i].connections, ConnHasId(connectionId));
        if idx >= 0 {
          FirstIndexAt(projects, FileHasConn(connectionId), i);
          var cs := projects[i].connections;
          var c := cs[idx].(connectionName := connectionName);
          PatchKeepsIds(projects, i, projects[i].(connections := cs[idx := c]));
          projects := projects[i := projects[i].(connections := cs[idx := c])];
          return Some(c);
        }
      }
      return None;
    }

    /** `id` stands for the generated id. */
    method AddSnapshot(projectId: string, snapshot: SnapshotRecord, id: string) returns (r: Option<SnapshotRecord>)
      requires Valid()
      modifies this
      ensures Valid()
      ensures users == old(users)
      ensures var i := FirstIndex(old(projects), FileHasId(projectId));
        && (i < 0 ==> r.None? && projects == old(projects))
        && (i >= 0 ==>
              (r == Some(snapshot.(id := id))
               && projects == old(projects)[i := old(projects)[i].(snapshots := old(projects)[i].snapshots + [r.value])]))
    {
      var i := FirstIndex(projects, FileHasId(projectId));
      if i < 0 {
        return None;
      }
      var record := snapshot.(id := id);
      PatchKeepsIds(projects, i, projects[i].(snapshots := projects[i].snapshots + [record]));
      projects := projects[i := projects[i].(snapshots := projects[i].snapshots + [record])];
      r := Some(record);
    }

    function GetLatestSnapshot(projectId: string): Option<SnapshotRecord>
      reads this
    {
      var f := FirstMatch(projects, FileHasId(projectId));
      if f.None? then None else Latest(f.value.snapshots, SnapshotTime)
    }

    /** `id` stands for the generated id. */
    method AddGraph(projectId: string, graph: GraphRecord, id: string) returns (r: Option<GraphRecord>)
      requires Valid()
      modifies this
      ensures Valid()
      ensures users == old(users)
      ensures var i := FirstIndex(old(projects), FileHasId(projectId));
        && (i < 0 ==> r.None? && projects == old(projects))
        && (i >= 0 ==>
              (r == Some(graph.(id := id))
               && projects == old(projects)[i := old(projects)[i].(graphs := old(projects)[i].graphs + [r.value])]))
    {
      var i := FirstIndex(projects, FileHasId(projectId));
      if i < 0 {
        return None;
      }
      var record := graph.(id := id);
      PatchKeepsIds(projects, i, projects[i].(graphs := projects[i].graphs + [record]));
      projects := projects[i := projects[i].(graphs := projects[i].graphs + [record])];
      r := Some(record);
    }

    function GetLatestGraph(projectId: string): Option<GraphRecord>
      reads this
    {
      var f := FirstMatch(projects, FileHasId(projectId));
      if f.None? then None else Latest(f.value.graphs, GraphTime)
    }

    method ResetProjectData(projectId: string) returns (ok: bool)
      requires Valid()
      modifies this
      ensures Valid()
      ensures users == old(users)
      ensures var i := FirstIndex(old(projects), FileHasId(projectId));
        && (ok <==> i >= 0)
        && (i < 0 ==> projects == old(projects))
        && (i >= 0 ==> projects == old(projects)[i := old(projects)[i].(snapshots := [], graphs := [])])
    {
      var i := FirstIndex(projects, FileHasId(projectId));
      if i < 0 {
        return false;
      }
      PatchKeepsIds(projects, i, projects[i].(snapshots := [], graphs := []));
      projects := projects[i := projects[i].(snapshots := [], graphs := [])];
      return true;
    }
  }
}
