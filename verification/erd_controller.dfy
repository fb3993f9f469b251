/**
 * The ERD sync controller: the build result handed to the graph builder (with
 * the `is_fk` flag of every column), the way back from a stored graph to plain
 * relations, and the connect, extract, infer, save sequence of a sync with its
 * progress events, its abort checks and its store writes.
 */
module ErdController {
  import opened Wrappers
  import opened Schema
  import opened RelationInferrer
  import opened ErdBuilder
  import opened Store

  // ------------------------------------------------------------ toBuildResult

  /** `fkSets` after the table loop: each table name bound to its declared FK columns. */
  function DeclaredFks(tables: seq<Table>): map<string, set<string>> {
    if |tables| == 0 then map[]
    else
      var t := tables[|tables| - 1];
      DeclaredFks(tables[..|tables| - 1])[t.name := FkColumns(t)]
  }

  /** `fkSets.get(name) ?? new Set()`. */
  function SetOf(m: map<string, set<string>>, name: string): set<string> {
    if name in m then m[name] else {}
  }

  /** `fkSets` after the relation loop: each relation's source column added to its table's set. */
  function AddSources(m: map<string, set<string>>, relations: seq<Relation>): map<string, set<string>> {
    if |relations| == 0 then m
    else
      var r := relations[|relations| - 1];
      var m' := AddSources(m, relations[..|relations| - 1]);
      m'[r.sourceTable := SetOf(m', r.sourceTable) + {r.sourceColumn}]
  }

  function FkSets(tables: seq<Table>, relations: seq<Relation>): map<string, set<string>> {
    AddSources(DeclaredFks(tables), relations)
  }

  function ToBuildColumn(c: Column, fks: set<string>): BuildColumn {
    BuildColumn(c.name, c.dataType, c.nullable, c.isPk, c.name in fks, c.comment)
  }

  function ToBuildTable(t: Table, fkSets: map<string, set<string>>): BuildTable {
    var fks := SetOf(fkSets, t.name);
    BuildTable(t.name, t.comment, t.domain,
      seq(|t.columns|, j requires 0 <= j < |t.columns| => ToBuildColumn(t.columns[j], fks)))
  }

  function BuildOf(metadata: ExtractResult, relations: seq<Relation>): BuildResult {
    var fkSets := FkSets(metadata.tables, relations);
    BuildResult(
      seq(|metadata.tables|, i requires 0 <= i < |metadata.tables| => ToBuildTable(metadata.tables[i], fkSets)),
      relations,
      metadata.extractedAt)
  }

  /** `toBuildResult`: the two loops that fill `fkSets`, then the mapping. */
  method ToBuildResult(metadata: ExtractResult, relations: seq<Relation>) returns (b: BuildResult)
    ensures b == BuildOf(metadata, relations)
  {
    var tables := metadata.tables;
    var fkSets: map<string, set<string>> := map[];
    for i := 0 to |tables|
      invariant fkSets == DeclaredFks(tables[..i])
    {
      assert tables[..i + 1][..i] == tables[..i];
      fkSets := fkSets[tables[i].name := FkColumns(tables[i])];
    }
    assert tables[..|tables|] == tables;
    ghost var declared := fkSets;
    for k := 0 to |relations|
      invariant fkSets == AddSources(declared, relations[..k])
    {
      assert relations[..k + 1][..k] == relations[..k];
      var rel := relations[k];
      if rel.sourceTable !in fkSets {
        fkSets := fkSets[rel.sourceTable := {}];
      }
      fkSets := fkSets[rel.sourceTable := fkSets[rel.sourceTable] + {rel.sourceColumn}];
    }
    assert relations[..|relations|] == relations;
    b := BuildResult(
      seq(|tables|, i requires 0 <= i < |tables| => ToBuildTable(tables[i], fkSets)),
      relations,
      metadata.extractedAt);
  }

  /** The declared FK columns bound to a name are those of the last table with that name. */
  lemma {:induction false} DeclaredFksAt(tables: seq<Table>, name: string)
    ensures SetOf(DeclaredFks(tables), name) ==
      (if exists j :: 0 <= j < |tables| && tables[j].name == name
       then FkColumns(tables[LastNamedIndex(tables, name)])
       else {})
    decreases |tables|
  {
    if |tables| > 0 {
      var init := tables[..|tables| - 1];
      DeclaredFksAt(init, name);
      if tables[|tables| - 1].name != name {
        if exists j :: 0 <= j < |tables| && tables[j].name == name {
          var j :| 0 <= j < |tables| && tables[j].name == name;
          assert init[j] == tables[j];
          LastNamedIndexInit(tables, init, name);
        } else {
          assert forall j :: 0 <= j < |init| ==> init[j] == tables[j];
        }
      }
    }
  }

  /** The index of the last table named `name`, when there is one. */
  function LastNamedIndex(tables: seq<Table>, name: string): (j: int)
    requires exists j :: 0 <= j < |tables| && tables[j].name == name
    ensures IsLastNamed(tables, j, name)
  {
    LastNamedExists(tables, name);
    var j :| IsLastNamed(tables, j, name);
    LastNamedUnique(tables, name, j);
    j
  }

  lemma {:induction false} LastNamedUnique(tables: seq<Table>, name: string, j: int)
    requires IsLastNamed(tables, j, name)
    ensures forall j' :: IsLastNamed(tables, j', name) ==> j' == j
  {
  }

  lemma {:induction false} LastNamedIndexInit(tables: seq<Table>, init: seq<Table>, name: string)
    requires |tables| > 0 && init == tables[..|tables| - 1] && tables[|tables| - 1].name != name
    requires exists j :: 0 <= j < |tables| - 1 && tables[j].name == name
    ensures exists j :: 0 <= j < |init| && init[j].name == name
    ensures LastNamedIndex(init, name) == LastNamedIndex(tables, name)
  {
    var j :| 0 <= j < |tables| - 1 && tables[j].name == name;
    assert init[j] == tables[j];
    var k := LastNamedIndex(init, name);
    assert IsLastNamed(tables, k, name);
    LastNamedUnique(tables, name, k);
  }

  /** Adding the relation sources adds exactly the source columns of that table's relations. */
  lemma {:induction false} AddSourcesAt(m: map<string, set<string>>, relations: seq<Relation>, name: string)
    ensures SetOf(AddSources(m, relations), name) ==
      SetOf(m, name) + (set r | r in relations && r.sourceTable == name :: r.sourceColumn)
    decreases |relations|
  {
    if |relations| > 0 {
      var init := relations[..|relations| - 1];
      var r := relations[|relations| - 1];
      AddSourcesAt(m, init, name);
      assert relations == init + [r];
      SourcesSnoc(init, r, name);
    }
  }

  /** The source columns of a table's relations, over a list with one more relation. */
  lemma {:induction false} SourcesSnoc(init: seq<Relation>, r: Relation, name: string)
    ensures (set x | x in init + [r] && x.sourceTable == name :: x.sourceColumn) ==
      (set x | x in init && x.sourceTable == name :: x.sourceColumn)
      + (if r.sourceTable == name then {r.sourceColumn} else {})
  {
    var sInit := set x | x in init && x.sourceTable == name :: x.sourceColumn;
    var sAll := set x | x in init + [r] && x.sourceTable == name :: x.sourceColumn;
    if r.sourceTable == name {
      assert sAll == sInit + {r.sourceColumn};
    } else {
      assert sAll == sInit;
    }
  }

  /**
   * A column is marked `is_fk` iff a declared foreign key of the last table with
   * its table's name names it, or some relation has it as source column of a
   * table with that name.
   */
  lemma {:induction false} IsFkIff(metadata: ExtractResult, relations: seq<Relation>, i: int, j: int)
    requires 0 <= i < |metadata.tables| && 0 <= j < |metadata.tables[i].columns|
    ensures var t := metadata.tables[i];
      var c := t.columns[j];
      BuildOf(metadata, relations).tables[i].columns[j].isFk <==>
        || c.name in FkColumns(metadata.tables[LastNamedIndex(metadata.tables, t.name)])
        || exists r :: r in relations && r.sourceTable == t.name && r.sourceColumn == c.name
  {
    var tables := metadata.tables;
    var t := tables[i];
    DeclaredFksAt(tables, t.name);
    AddSourcesAt(DeclaredFks(tables), relations, t.name);
    var fks := SetOf(FkSets(tables, relations), t.name);
    assert BuildOf(metadata, relations).tables[i].columns[j].isFk == (t.columns[j].name in fks);
  }

  /** With distinct table names, the declared foreign keys are the table's own. */
  lemma {:induction false} IsFkOwnTable(metadata: ExtractResult, relations: seq<Relation>, i: int, j: int)
    requires forall a, b :: 0 <= a < b < |metadata.tables| ==> metadata.tables[a].name != metadata.tables[b].name
    requires 0 <= i < |metadata.tables| && 0 <= j < |metadata.tables[i].columns|
    ensures var t := metadata.tables[i];
      var c := t.columns[j];
      BuildOf(metadata, relations).tables[i].columns[j].isFk <==>
        || (exists f :: f in t.fkRefs && f.columnName == c.name)
        || exists r :: r in relations && r.sourceTable == t.name && r.sourceColumn == c.name
  {
    IsFkIff(metadata, relations, i, j);
    assert IsLastNamed(metadata.tables, i, metadata.tables[i].name);
    LastNamedUnique(metadata.tables, metadata.tables[i].name, i);
  }

  /** Tables and columns keep their order and fields; relations and time pass through. */
  lemma {:induction false} BuildOfShape(metadata: ExtractResult, relations: seq<Relation>, i: int, j: int)
    requires 0 <= i < |metadata.tables| && 0 <= j < |metadata.tables[i].columns|
    ensures var b := BuildOf(metadata, relations);
      var t, u := metadata.tables[i], b.tables[i];
      && |b.tables| == |metadata.tables| && b.relations == relations && b.extractedAt == metadata.extractedAt
      && u.name == t.name && u.comment == t.comment && u.domain == t.domain
      && |u.columns| == |t.columns|
      && u.columns[j].name == t.columns[j].name && u.columns[j].dataType == t.columns[j].dataType
      && u.columns[j].nullable == t.columns[j].nullable && u.columns[j].isPk == t.columns[j].isPk
      && u.columns[j].comment == t.columns[j].comment
  {
  }

  // ------------------------------------------------------------ toWorkerRelation

  function ToWorkerRelation(r: ErdRelation): Relation {
    Relation(r.sourceTable, r.sourceColumn, r.targetTable, r.targetColumn, r.confidence, r.cardinality,
      r.reason, r.evidence, None)
  }

  /** `toWorkerRelation`: a missing list is empty; otherwise each relation without id and score. */
  function ToWorkerRelations(relations: Option<seq<ErdRelation>>): (r: seq<Relation>)
    ensures relations.None? ==> r == []
  {
    if relations.None? then []
    else seq(|relations.value|, k requires 0 <= k < |relations.value| => ToWorkerRelation(relations.value[k]))
  }

  /** Building a graph and converting its relations back gives the relations without their scores. */
  lemma {:induction false} RelationsRoundTrip(projectId: string, build: BuildResult)
    ensures ToWorkerRelations(Some(BuildErdGraph(projectId, build).relations)) ==
      seq(|build.relations|, k requires 0 <= k < |build.relations| => build.relations[k].(score := None))
  {
  }

  /** Relations without scores come back unchanged. */
  lemma {:induction false} RelationsRoundTripExact(projectId: string, build: BuildResult)
    requires forall k :: 0 <= k < |build.relations| ==> build.relations[k].score.None?
    ensures ToWorkerRelations(Some(BuildErdGraph(projectId, build).relations)) == build.relations
  {
    RelationsRoundTrip(projectId, build);
  }

  // ------------------------------------------------------------ handleSyncErd

  /** The events a sync sends; the texts of the messages are not modelled. */
  datatype SyncEvent =
    | Connect
    | Extracted(tableCount: int)
    | Inferred(relationCount: int)
    | Saving
    | Done(graph: ErdGraph)
    | Failed(message: string)

  function Progress(e: SyncEvent): int {
    match e
    case Connect => 15
    case Extracted(_) => 45
    case Inferred(_) => 70
    case Saving => 88
    case Done(_) => 100
    case Failed(_) => 0
  }

  /** A 404 before any event, or the event stream. */
  datatype SyncResponse = NotFound | Stream(events: seq<SyncEvent>)

  /**
   * `closedBefore` is the first abort check (1 to 4) that sees the client gone;
   * the flag only ever turns on, so every later check sees it too.
   */
  predicate AbortSeen(closedBefore: nat, check: nat) {
    check >= closedBefore
  }

  function ConnInProject(projectId: string): ConnectionRecord -> bool {
    (c: ConnectionRecord) => c.projectId == projectId
  }

  /** The connection a sync uses: by id when a non-empty id is given, else the project's first. */
  function ConnectionFor(files: seq<ProjectFile>, projectId: string, connectionId: Option<string>): Option<ConnectionRecord> {
    if connectionId.Some? && connectionId.value != "" then FindConnection(files, connectionId.value)
    else FirstMatch(AllConnections(files), ConnInProject(projectId))
  }

  /** The graph a successful sync builds. */
  function SyncGraph(projectId: string, metadata: ExtractResult): ErdGraph {
    BuildErdGraph(projectId, BuildOf(metadata, Infer(metadata.tables)))
  }

  function SnapshotOf(conn: ConnectionRecord, metadata: ExtractResult, id: string): SnapshotRecord {
    SnapshotRecord(id, conn.projectId, conn.id, metadata.extractedAt, metadata.schemaName,
      metadata.tableCount, metadata.columnCount, metadata.fkCount, metadata.tables)
  }

  /** The events of a sync whose connection was found. */
  function SyncEvents(projectId: string, extracted: Result<ExtractResult, string>, closedBefore: nat): seq<SyncEvent> {
    [Connect] +
    if AbortSeen(closedBefore, 1) then []
    else if extracted.Err? then [Failed(extracted.error)]
    else if AbortSeen(closedBefore, 2) then []
    else
      var md := extracted.value;
      [Extracted(md.tableCount)] +
      if AbortSeen(closedBefore, 3) then []
      else
        [Inferred(|Infer(md.tables)|)] +
        if AbortSeen(closedBefore, 4) then [] else [Saving, Done(SyncGraph(projectId, md))]
  }

  /** The sync reaches the save step. */
  predicate Saves(extracted: Result<ExtractResult, string>, closedBefore: nat) {
    extracted.Ok? && !AbortSeen(closedBefore, 4)
  }

  lemma {:induction false} FirstIndexPatch<T>(s: seq<T>, p: T -> bool, i: int, x: T)
    requires 0 <= i < |s| && p(x) == p(s[i])
    ensures FirstIndex(s[i := x], p) == FirstIndex(s, p)
  {
    var k := FirstIndex(s, p);
    if k >= 0 {
      FirstIndexAt(s[i := x], p, k);
    } else {
      var t := s[i := x];
      assert forall j :: 0 <= j < |t| ==> !p(t[j]);
    }
  }

  /** The connection lookup of a sync. */
  method SyncConnection(store: JsonStore, projectId: string, connectionId: Option<string>)
    returns (connection: Option<ConnectionRecord>)
    ensures connection == ConnectionFor(store.projects, projectId, connectionId)
  {
    if connectionId.Some? && connectionId.value != "" {
      connection := store.FindConnectionById(connectionId.value);
    } else {
      var all := store.ListConnections();
      connection := FirstMatch(all, ConnInProject(projectId));
    }
  }

  /** The save step: reset the project, then add the snapshot, then add the graph. */
  method SaveSync(store: JsonStore, projectId: string, snapshot: SnapshotRecord, graph: GraphRecord)
    requires store.Valid()
    modifies store
    ensures store.Valid()
    ensures store.users == old(store.users)
    ensures var i := FirstIndex(old(store.projects), FileHasId(projectId));
      && (i < 0 ==> store.projects == old(store.projects))
      && (i >= 0 ==> store.projects == old(store.projects)[i := old(store.projects)[i].(snapshots := [snapshot], graphs := [graph])])
  {
    ghost var before := store.projects;
    ghost var i := FirstIndex(before, FileHasId(projectId));
    var _ := store.ResetProjectData(projectId);
    ghost var reset := store.projects;
    if i >= 0 {
      FirstIndexPatch(before, FileHasId(projectId), i, reset[i]);
    }
    var _ := store.AddSnapshot(projectId, snapshot, snapshot.id);
    ghost var added := store.projects;
    if i >= 0 {
      assert reset[i].snapshots + [snapshot.(id := snapshot.id)] == [snapshot];
      FirstIndexPatch(reset, FileHasId(projectId), i, added[i]);
    }
    var _ := store.AddGraph(projectId, graph, graph.id);
    if i >= 0 {
      assert added[i].graphs + [graph.(id := graph.id)] == [graph];
    }
  }

  /**
   * `handleSyncErd`. The extractor's outcome (`Err` carrying the thrown
   * message), the abort check that first sees the client gone, and the
   * generated ids of the two new records are parameters.
   */
  method HandleSyncErd(store: JsonStore, projectId: string, connectionId: Option<string>,
                       extracted: Result<ExtractResult, string>, closedBefore: nat,
                       snapshotId: string, graphId: string)
    returns (resp: SyncResponse)
    requires store.Valid()
    modifies store
    ensures store.Valid()
    ensures var conn := ConnectionFor(old(store.projects), projectId, connectionId);
      && (conn.None? ==> resp == NotFound)
      && (conn.Some? ==> resp == Stream(SyncEvents(projectId, extracted, closedBefore)))
    ensures store.users == old(store.users)
    ensures var conn := ConnectionFor(old(store.projects), projectId, connectionId);
      var i := FirstIndex(old(store.projects), FileHasId(projectId));
      if conn.Some? && Saves(extracted, closedBefore) && i >= 0 then
        store.projects == old(store.projects)[i := old(store.projects)[i].(
          snapshots := [SnapshotOf(conn.value, extracted.value, snapshotId)],
          graphs := [GraphRecord(graphId, projectId, extracted.value.extractedAt, SyncGraph(projectId, extracted.value))])]
      else
        store.projects == old(store.projects)
  {
    var connection := SyncConnection(store, projectId, connectionId);
    if connection.None? {
      return NotFound;
    }
    var events := SyncStream(store, projectId, connection.value, extracted, closedBefore, snapshotId, graphId);
    resp := Stream(events);
  }

  /** The stream of a sync whose connection was found: the checkpoints, the abort checks and the save. */
  method SyncStream(store: JsonStore, projectId: string, conn: ConnectionRecord,
                    extracted: Result<ExtractResult, string>, closedBefore: nat,
                    snapshotId: string, graphId: string)
    returns (events: seq<SyncEvent>)
    requires store.Valid()
    modifies store
    ensures store.Valid()
    ensures events == SyncEvents(projectId, extracted, closedBefore)
    ensures store.users == old(store.users)
    ensures var i := FirstIndex(old(store.projects), FileHasId(projectId));
      if Saves(extracted, closedBefore) && i >= 0 then
        store.projects == old(store.projects)[i := old(store.projects)[i].(
          snapshots := [SnapshotOf(conn, extracted.value, snapshotId)],
          graphs := [GraphRecord(graphId, projectId, extracted.value.extractedAt, SyncGraph(projectId, extracted.value))])]
      else
        store.projects == old(store.projects)
  {
    SyncEventsCases(projectId, extracted, closedBefore);
    events := [Connect];
    if AbortSeen(closedBefore, 1) {
      return;
    }
    if extracted.Err? {
      events := events + [Failed(extracted.error)];
      return;
    }
    var metadata := extracted.value;
    if AbortSeen(closedBefore, 2) {
      return;
    }
    events := events + [Extracted(metadata.tableCount)];

    var relations := InferRelations(metadata);
    if AbortSeen(closedBefore, 3) {
      return;
    }
    events := events + [Inferred(|relations|)];

    var buildResult := ToBuildResult(metadata, relations);
    var graph := BuildErdGraph(projectId, buildResult);
    if AbortSeen(closedBefore, 4) {
      return;
    }
    events := events + [Saving];

    assert graph == SyncGraph(projectId, metadata);
    SaveSync(store, projectId, SnapshotOf(conn, metadata, snapshotId),
      GraphRecord(graphId, projectId, graph.extractedAt, graph));

    events := events + [Done(graph)];
  }

  /** Without a thrown error or an abort, the events are the five checkpoints in order, the last carrying the graph. */
  lemma {:induction false} SyncSuccess(projectId: string, metadata: ExtractResult, closedBefore: nat)
    requires !AbortSeen(closedBefore, 4)
    ensures var events := SyncEvents(projectId, Ok(metadata), closedBefore);
      && |events| == 5
      && (forall k :: 0 <= k < 4 ==> Progress(events[k]) < Progress(events[k + 1]))
      && events[4] == Done(SyncGraph(projectId, metadata))
      && Progress(events[4]) == 100
  {
    SyncEventsCases(projectId, Ok(metadata), closedBefore);
    var events := SyncEvents(projectId, Ok(metadata), closedBefore);
    assert events == [Connect, Extracted(metadata.tableCount), Inferred(|Infer(metadata.tables)|), Saving,
                      Done(SyncGraph(projectId, metadata))];
  }

  /**
   * Every stream starts with `connect`; progress strictly increases along it
   * except for a final error event; there is at most one error, it has progress
   * 0, it is last, and no `done` event comes with it.
   */
  lemma {:induction false} SyncEventsShape(projectId: string, extracted: Result<ExtractResult, string>, closedBefore: nat)
    ensures var events := SyncEvents(projectId, extracted, closedBefore);
      && 1 <= |events| <= 5 && events[0] == Connect
      && (forall k :: 0 <= k < |events| - 1 && !events[k + 1].Failed? ==> Progress(events[k]) < Progress(events[k + 1]))
      && (forall k :: 0 <= k < |events| && events[k].Failed? ==> k == |events| - 1 && Progress(events[k]) == 0)
      && (forall k :: 0 <= k < |events| && events[k].Done? ==> k == |events| - 1 && Saves(extracted, closedBefore))
      && (extracted.Err? && !AbortSeen(closedBefore, 1) ==> events == [Connect, Failed(extracted.error)])
  {
    SyncEventsCases(projectId, extracted, closedBefore);
    var events := SyncEvents(projectId, extracted, closedBefore);
    if extracted.Ok? && !AbortSeen(closedBefore, 2) {
      var md := extracted.value;
      ChainShape(events, Extracted(md.tableCount), Inferred(|Infer(md.tables)|), Done(SyncGraph(projectId, md)));
    }
  }

  /** The four lists `SyncEvents` can give. */
  lemma {:induction false} SyncEventsCases(projectId: string, extracted: Result<ExtractResult, string>, closedBefore: nat)
    ensures var events := SyncEvents(projectId, extracted, closedBefore);
      && (AbortSeen(closedBefore, 1) || (extracted.Ok? && AbortSeen(closedBefore, 2)) ==> events == [Connect])
      && (!AbortSeen(closedBefore, 1) && extracted.Err? ==> events == [Connect, Failed(extracted.error)])
      && (extracted.Ok? && !AbortSeen(closedBefore, 2) ==>
            var md := extracted.value;
            var e1, e2 := Extracted(md.tableCount), Inferred(|Infer(md.tables)|);
            && (AbortSeen(closedBefore, 3) ==> events == [Connect, e1])
            && (!AbortSeen(closedBefore, 3) && AbortSeen(closedBefore, 4) ==> events == [Connect, e1, e2])
            && (!AbortSeen(closedBefore, 4) ==>
                  events == [Connect, e1, e2, Saving, Done(SyncGraph(projectId, md))] && Saves(extracted, closedBefore)))
  {
  }

  /** A stream of the checkpoints up to some point, with no error among them. */
  lemma {:induction false} ChainShape(events: seq<SyncEvent>, e1: SyncEvent, e2: SyncEvent, done: SyncEvent)
    requires e1.Extracted? && e2.Inferred? && done.Done?
    requires events == [Connect, e1] || events == [Connect, e1, e2] || events == [Connect, e1, e2, Saving, done]
    ensures forall k :: 0 <= k < |events| - 1 ==> Progress(events[k]) < Progress(events[k + 1])
    ensures forall k :: 0 <= k < |events| ==> !events[k].Failed?
    ensures forall k :: 0 <= k < |events| - 1 ==> !events[k].Done?
  {
  }

  /** A sync writes to the store only when it reaches the save event, which it then sends. */
  lemma {:induction false} SaveOnlyAfterSaveEvent(projectId: string, extracted: Result<ExtractResult, string>, closedBefore: nat)
    ensures Saves(extracted, closedBefore) <==> Saving in SyncEvents(projectId, extracted, closedBefore)
  {
    var events := SyncEvents(projectId, extracted, closedBefore);
    if Saving in events {
      var k :| 0 <= k < |events| && events[k] == Saving;
    }
  }
}
