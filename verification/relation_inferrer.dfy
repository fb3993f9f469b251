/**
 * The server's relation inferrer (server/src/lib/relationInferrer.ts).
 *
 * Declared foreign keys become FK relations; every other non-PK column whose
 * lower-case name ends in `_id`, `_cd`/`_code` or `_no` is matched against the
 * table names and, on a hit, becomes a HIGH, MEDIUM or LOW relation; a final
 * pass drops relations whose four endpoints repeat an earlier one.
 *
 * `InferRelations` is the loop program; `Infer` is the fold it computes, and
 * the lemmas below state what `Infer` promises.
 */
module RelationInferrer {
  import opened Wrappers
  import opened Text
  import opened Schema

  // ------------------------------------------------------------ name index

  /**
   * The lower-case table-name map: entries in first-insertion order; setting a
   * key that is present replaces its value in place, as a JavaScript `Map` does.
   */
  type NameIndex = seq<(string, string)>

  predicate KeysDistinct(idx: NameIndex) {
    forall i, j :: 0 <= i < j < |idx| ==> idx[i].0 != idx[j].0
  }

  /** The position of key `k`, or -1. */
  function KeyPos(idx: NameIndex, k: string): (p: int)
    ensures -1 <= p < |idx|
    ensures p >= 0 ==> idx[p].0 == k
    ensures p < 0 ==> forall i :: 0 <= i < |idx| ==> idx[i].0 != k
  {
    if |idx| == 0 then -1
    else if idx[|idx| - 1].0 == k then |idx| - 1
    else KeyPos(idx[..|idx| - 1], k)
  }

  /** `map.get(k)`. */
  function IndexGet(idx: NameIndex, k: string): Option<string> {
    var p := KeyPos(idx, k);
    if p >= 0 then Some(idx[p].1) else None
  }

  /** `map.set(k, v)`: replace in place when present, else append. */
  function IndexSet(idx: NameIndex, k: string, v: string): NameIndex {
    var p := KeyPos(idx, k);
    if p >= 0 then idx[p := (k, v)] else idx + [(k, v)]
  }

  /** `map.set` keeps keys distinct, binds `k` to `v` and leaves other keys alone. */
  lemma {:induction false} IndexSetGet(idx: NameIndex, k: string, v: string)
    requires KeysDistinct(idx)
    ensures KeysDistinct(IndexSet(idx, k, v))
    ensures IndexGet(IndexSet(idx, k, v), k) == Some(v)
    ensures forall k' :: k' != k ==> IndexGet(IndexSet(idx, k, v), k') == IndexGet(idx, k')
  {
    var r := IndexSet(idx, k, v);
    var p := KeyPos(idx, k);
    IndexSetKeys(idx, k, v);
    forall i, j | 0 <= i < j < |r| ensures r[i].0 != r[j].0 {
      if j < |idx| {
        assert r[i].0 == idx[i].0 && r[j].0 == idx[j].0;
      }
    }
    IndexGetDistinct(r, k);
    if p >= 0 {
      assert r[p] == (k, v);
    } else {
      assert r[|idx|] == (k, v);
    }
    forall k' | k' != k ensures IndexGet(r, k') == IndexGet(idx, k') {
      IndexGetDistinct(r, k');
      IndexGetDistinct(idx, k');
      var p := KeyPos(idx, k');
      if p >= 0 {
        assert r[p] == idx[p];
      }
    }
  }

  /** In a map with distinct keys, `get` returns the value stored under the key. */
  lemma {:induction false} IndexGetDistinct(idx: NameIndex, k: string)
    requires KeysDistinct(idx)
    ensures forall i :: 0 <= i < |idx| && idx[i].0 == k ==> IndexGet(idx, k) == Some(idx[i].1)
  {
  }

  /** The map from lower-case table name to original name (later tables win). */
  function BuildIndex(tables: seq<Table>): (r: NameIndex)
    ensures KeysDistinct(r)
  {
    if |tables| == 0 then []
    else
      var t := tables[|tables| - 1];
      var prev := BuildIndex(tables[..|tables| - 1]);
      IndexSetGet(prev, ToLower(t.name), t.name);
      IndexSet(prev, ToLower(t.name), t.name)
  }

  /** The first primary-key column of a table, or `"id"` when it has none. */
  function FirstPk(t: Table): string {
    if |t.pkColumns| > 0 then t.pkColumns[0] else "id"
  }

  /** The map from table name to first PK column (later tables win). */
  function PkMap(tables: seq<Table>): map<string, string> {
    if |tables| == 0 then map[]
    else
      var t := tables[|tables| - 1];
      PkMap(tables[..|tables| - 1])[t.name := FirstPk(t)]
  }

  // ------------------------------------------------------------ target lookup

  /** A lower-case table name that is, ends with `_p` or starts with `p_`. */
  predicate SegmentHit(key: string, lower: string) {
    key == lower || EndsWith(key, "_" + lower) || StartsWith(key, lower + "_")
  }

  /** The value of the first entry, in map order, that the segment test accepts. */
  function SegmentMatch(idx: NameIndex, lower: string): Option<string> {
    if |idx| == 0 then None
    else if SegmentHit(idx[0].0, lower) then Some(idx[0].1)
    else SegmentMatch(idx[1..], lower)
  }

  /** `findTable`: an exact case-insensitive hit first, else the first segment hit. */
  function FindTable(idx: NameIndex, prefix: string): Option<string> {
    var lower := ToLower(prefix);
    var exact := IndexGet(idx, lower);
    if exact.Some? then exact else SegmentMatch(idx, lower)
  }

  /** The loop that `findTable` runs over the map. */
  method FindTableIn(idx: NameIndex, prefix: string) returns (r: Option<string>)
    ensures r == FindTable(idx, prefix)
  {
    var lower := ToLower(prefix);
    var exact := IndexGet(idx, lower);
    if exact.Some? {
      return exact;
    }
    var i := 0;
    while i < |idx|
      invariant 0 <= i <= |idx|
      invariant SegmentMatch(idx[i..], lower) == SegmentMatch(idx, lower)
    {
      var (tLower, tOrig) := idx[i];
      if tLower == lower {
        return Some(tOrig);
      }
      if EndsWith(tLower, "_" + lower) || StartsWith(tLower, lower + "_") {
        return Some(tOrig);
      }
      assert idx[i..][1..] == idx[i + 1..];
      i := i + 1;
    }
    return None;
  }

  // ------------------------------------------------------------ relations

  const ID_REASON: string := "_id 패턴 매칭"
  const CODE_REASON: string := "_cd/_code 패턴 매칭"
  const NO_REASON: string := "_no 패턴 매칭"

  /** The relation a declared foreign key of table `tableName` becomes. */
  function FkRelation(tableName: string, fk: FkRef): Relation {
    Relation(tableName, fk.columnName, fk.refTable, fk.refColumn, FK, OneToMany,
      Some("FK constraint: " + fk.constraintName),
      Some(tableName + "." + fk.columnName + " → " + fk.refTable + "." + fk.refColumn),
      Some(100))
  }

  function TableFks(tableName: string, fks: seq<FkRef>): seq<Relation> {
    if |fks| == 0 then []
    else TableFks(tableName, fks[..|fks| - 1]) + [FkRelation(tableName, fks[|fks| - 1])]
  }

  /** Pass 1: one FK relation per declared foreign key, table by table. */
  function FkRels(tables: seq<Table>): seq<Relation> {
    if |tables| == 0 then []
    else
      var t := tables[|tables| - 1];
      FkRels(tables[..|tables| - 1]) + TableFks(t.name, t.fkRefs)
  }

  /** The `table.column` key a relation registers. */
  function SourceKey(r: Relation): (string, string) {
    (r.sourceTable, r.sourceColumn)
  }

  function RegKeys(rels: seq<Relation>): set<(string, string)> {
    set r | r in rels :: SourceKey(r)
  }

  datatype Ctx = Ctx(index: NameIndex, pk: map<string, string>)

  /** The relation a suffix rule proposes for a resolved target. */
  function Proposed(ctx: Ctx, tableName: string, col: Column, target: string,
                    conf: Confidence, reason: string, fallback: string, score: int): Relation
  {
    var targetPk := if target in ctx.pk then ctx.pk[target] else fallback;
    Relation(tableName, col.name, target, targetPk, conf, ManyToOne,
      Some(reason), Some(col.name + " → " + target + "." + targetPk), Some(score))
  }

  /** Which suffix rule a lower-case column name falls under, with the suffix length. */
  datatype Rule = IdRule | CodeRule(suffixLen: nat) | NoRule | NoPattern

  function RuleOf(lower: string): (rule: Rule)
    ensures rule.CodeRule? ==> rule.suffixLen <= |lower|
  {
    if EndsWith(lower, "_id") then IdRule
    else if EndsWith(lower, "_cd") then CodeRule(3)
    else if EndsWith(lower, "_code") then CodeRule(5)
    else if EndsWith(lower, "_no") then NoRule
    else NoPattern
  }

  /** The name with the matched suffix removed. */
  function Base(lower: string, rule: Rule): string
    requires rule == RuleOf(lower) && !rule.NoPattern?
  {
    match rule
    case CodeRule(n) => lower[..|lower| - n]
    case _ => lower[..|lower| - 3]
  }

  /** The suffix rules, tried in order `_id`, `_cd`/`_code`, `_no`. */
  function PatternRelation(ctx: Ctx, tableName: string, col: Column): Option<Relation> {
    var lower := ToLower(col.name);
    var rule := RuleOf(lower);
    if rule.NoPattern? then None
    else
      var target := FindTable(ctx.index, Base(lower, rule));
      if target.None? then None
      else
        var t := target.value;
        match rule
        case IdRule =>
          var hasComment := col.comment.Some? && Contains(col.comment.value, t);
          Some(Proposed(ctx, tableName, col, t, HIGH, ID_REASON, "id", if hasComment then 90 else 80))
        case CodeRule(_) => Some(Proposed(ctx, tableName, col, t, MEDIUM, CODE_REASON, col.name, 65))
        case NoRule => Some(Proposed(ctx, tableName, col, t, LOW, NO_REASON, col.name, 50))
  }

  /** The pattern pass's state: relations proposed so far and the registered keys. */
  datatype PassState = PassState(rels: seq<Relation>, registered: set<(string, string)>)

  /** One column of pass 2: skipped when registered or a PK, else its rule's relation. */
  function ColumnStep(ctx: Ctx, tableName: string, col: Column, st: PassState): PassState {
    var key := (tableName, col.name);
    if key in st.registered || col.isPk then st
    else
      match PatternRelation(ctx, tableName, col)
      case None => st
      case Some(r) => PassState(st.rels + [r], st.registered + {key})
  }

  function ColumnsFold(ctx: Ctx, tableName: string, cols: seq<Column>, st: PassState): PassState {
    if |cols| == 0 then st
    else ColumnStep(ctx, tableName, cols[|cols| - 1], ColumnsFold(ctx, tableName, cols[..|cols| - 1], st))
  }

  function TablesFold(ctx: Ctx, tables: seq<Table>, st: PassState): PassState {
    if |tables| == 0 then st
    else
      var t := tables[|tables| - 1];
      ColumnsFold(ctx, t.name, t.columns, TablesFold(ctx, tables[..|tables| - 1], st))
  }

  /**
   * Pass 2 over every table, after the FK relations `fks`: the columns' rule
   * relations are appended, skipping the columns `registered` already holds.
   */
  method PatternPass(index: NameIndex, pk: map<string, string>, tables: seq<Table>, fks: seq<Relation>)
    returns (relations: seq<Relation>)
    ensures relations == fks + TablesFold(Ctx(index, pk), tables, PassState([], RegKeys(fks))).rels
  {
    ghost var ctx := Ctx(index, pk);
    relations := fks;
    var registered := RegKeys(fks);
    ghost var init := PassState([], registered);
    ghost var st := init;
    for i := 0 to |tables|
      invariant st == TablesFold(ctx, tables[..i], init)
      invariant relations == fks + st.rels && registered == st.registered
    {
      ghost var before := st;
      relations, registered := ColumnsPass(index, pk, tables[i], relations, registered);
      ghost var added := ColumnsFold(ctx, tables[i].name, tables[i].columns, PassState([], before.registered));
      ColumnsFoldShift(ctx, tables[i].name, tables[i].columns, before.rels, before.registered);
      st := ColumnsFold(ctx, tables[i].name, tables[i].columns, before);
      TablesFoldStep(ctx, tables, i, init);
      assert relations == fks + st.rels by {
        assert relations == (fks + before.rels) + added.rels;
        assert st.rels == before.rels + added.rels;
      }
    }
    assert tables[..|tables|] == tables;
  }

  /** The tables fold after one more table, in the terms of the loop over tables. */
  lemma {:induction false} TablesFoldStep(ctx: Ctx, tables: seq<Table>, i: nat, init: PassState)
    requires i < |tables|
    ensures TablesFold(ctx, tables[..i + 1], init)
         == ColumnsFold(ctx, tables[i].name, tables[i].columns, TablesFold(ctx, tables[..i], init))
  {
    assert tables[..i + 1][..i] == tables[..i];
  }

  // ------------------------------------------------------------ dedup

  function EndpointKey(r: Relation): (string, string, string, string) {
    (r.sourceTable, r.sourceColumn, r.targetTable, r.targetColumn)
  }

  /** The endpoint keys of a list of relations. */
  function Seen(s: seq<Relation>): set<(string, string, string, string)> {
    if |s| == 0 then {} else Seen(s[..|s| - 1]) + {EndpointKey(s[|s| - 1])}
  }

  /**
   * The final filter: a relation is kept iff no earlier relation has the same
   * endpoints.
   */
  function Dedup(s: seq<Relation>): seq<Relation> {
    if |s| == 0 then []
    else
      var prev := Dedup(s[..|s| - 1]);
      var last := s[|s| - 1];
      if EndpointKey(last) in Seen(s[..|s| - 1]) then prev else prev + [last]
  }

  // ------------------------------------------------------------ inferRelations

  /** What `inferRelations` returns for the tables of an extraction. */
  function Infer(tables: seq<Table>): seq<Relation> {
    var fks := FkRels(tables);
    var ctx := Ctx(BuildIndex(tables), PkMap(tables));
    var st := TablesFold(ctx, tables, PassState([], RegKeys(fks)));
    Dedup(fks + st.rels)
  }

  /** Pass 2 for one column, with `findTable`'s loop. */
  method PatternFor(index: NameIndex, pk: map<string, string>, tableName: string, col: Column)
    returns (r: Option<Relation>)
    ensures r == PatternRelation(Ctx(index, pk), tableName, col)
  {
    var ctx := Ctx(index, pk);
    var colLower := ToLower(col.name);
    var rule := RuleOf(colLower);
    if rule.NoPattern? {
      return None;
    }
    var target := FindTableIn(index, Base(colLower, rule));
    if target.None? {
      return None;
    }
    match rule {
      case IdRule =>
        var hasComment := col.comment.Some? && Contains(col.comment.value, target.value);
        r := Some(Proposed(ctx, tableName, col, target.value, HIGH, ID_REASON, "id",
          if hasComment then 90 else 80));
      case CodeRule(_) =>
        r := Some(Proposed(ctx, tableName, col, target.value, MEDIUM, CODE_REASON, col.name, 65));
      case NoRule =>
        r := Some(Proposed(ctx, tableName, col, target.value, LOW, NO_REASON, col.name, 50));
    }
  }

  /** The two maps `inferRelations` builds before its passes. */
  method BuildMaps(tables: seq<Table>) returns (index: NameIndex, pk: map<string, string>)
    ensures index == BuildIndex(tables) && pk == PkMap(tables)
  {
    index := [];
    for i := 0 to |tables|
      invariant index == BuildIndex(tables[..i])
    {
      assert tables[..i + 1][..i] == tables[..i];
      index := IndexSet(index, ToLower(tables[i].name), tables[i].name);
    }
    pk := map[];
    for i := 0 to |tables|
      invariant pk == PkMap(tables[..i])
    {
      assert tables[..i + 1][..i] == tables[..i];
      pk := pk[tables[i].name := FirstPk(tables[i])];
    }
    assert tables[..|tables|] == tables;
  }

  /** Pass 1 as the nested loops that push the FK relations. */
  method FkPass(tables: seq<Table>) returns (relations: seq<Relation>)
    ensures relations == FkRels(tables)
  {
    relations := [];
    for i := 0 to |tables|
      invariant relations == FkRels(tables[..i])
    {
      var table := tables[i];
      for j := 0 to |table.fkRefs|
        invariant relations == FkRels(tables[..i]) + TableFks(table.name, table.fkRefs[..j])
      {
        assert table.fkRefs[..j + 1][..j] == table.fkRefs[..j];
        relations := relations + [FkRelation(table.name, table.fkRefs[j])];
      }
      assert table.fkRefs[..|table.fkRefs|] == table.fkRefs;
      assert tables[..i + 1][..i] == tables[..i];
    }
    assert tables[..|tables|] == tables;
  }

  /** Pass 2 over one table's columns, appending to `relations` and `registered`. */
  method ColumnsPass(index: NameIndex, pk: map<string, string>, table: Table,
                     relations0: seq<Relation>, registered0: set<(string, string)>)
    returns (relations: seq<Relation>, registered: set<(string, string)>)
    ensures var st := ColumnsFold(Ctx(index, pk), table.name, table.columns, PassState([], registered0));
      relations == relations0 + st.rels && registered == st.registered
  {
    ghost var ctx := Ctx(index, pk);
    relations, registered := relations0, registered0;
    ghost var st := PassState([], registered0);
    for j := 0 to |table.columns|
      invariant st == ColumnsFold(ctx, table.name, table.columns[..j], PassState([], registered0))
      invariant relations == relations0 + st.rels && registered == st.registered
    {
      var col := table.columns[j];
      assert table.columns[..j + 1][..j] == table.columns[..j];
      relations, registered := ColumnIn(index, pk, table.name, col, relations0, relations, registered, st);
      st := ColumnStep(ctx, table.name, col, st);
    }
    assert table.columns[..|table.columns|] == table.columns;
  }

  /** One column of pass 2, on the loop's variables. */
  method ColumnIn(index: NameIndex, pk: map<string, string>, tableName: string, col: Column,
                  ghost relations0: seq<Relation>, relations: seq<Relation>, registered: set<(string, string)>,
                  ghost st: PassState)
    returns (relations': seq<Relation>, registered': set<(string, string)>)
    requires relations == relations0 + st.rels && registered == st.registered
    ensures var next := ColumnStep(Ctx(index, pk), tableName, col, st);
      relations' == relations0 + next.rels && registered' == next.registered
  {
    relations', registered' := relations, registered;
    var key := (tableName, col.name);
    if key !in registered && !col.isPk {
      var proposed := PatternFor(index, pk, tableName, col);
      if proposed.Some? {
        relations' := relations + [proposed.value];
        registered' := registered + {key};
      }
    }
  }

  /** Folding the columns from a state with relations `rels` appends to `rels`. */
  lemma {:induction false} ColumnsFoldShift(ctx: Ctx, tableName: string, cols: seq<Column>,
                                            rels: seq<Relation>, reg: set<(string, string)>)
    ensures ColumnsFold(ctx, tableName, cols, PassState(rels, reg)).rels
         == rels + ColumnsFold(ctx, tableName, cols, PassState([], reg)).rels
    ensures ColumnsFold(ctx, tableName, cols, PassState(rels, reg)).registered
         == ColumnsFold(ctx, tableName, cols, PassState([], reg)).registered
    decreases |cols|
  {
    if |cols| > 0 {
      ColumnsFoldShift(ctx, tableName, cols[..|cols| - 1], rels, reg);
    }
  }

  /** The filter with its `seen` set. */
  method DedupPass(relations: seq<Relation>) returns (result: seq<Relation>)
    ensures result == Dedup(relations)
  {
    var seen: set<(string, string, string, string)> := {};
    result := [];
    for i := 0 to |relations|
      invariant result == Dedup(relations[..i]) && seen == Seen(relations[..i])
    {
      ghost var upTo := relations[..i + 1];
      assert upTo[..i] == relations[..i] && upTo[i] == relations[i];
      var r := relations[i];
      var k := EndpointKey(r);
      if k !in seen {
        seen := seen + {k};
        result := result + [r];
      }
    }
    assert relations[..|relations|] == relations;
  }

  /** `inferRelations`: the FK pass, the pattern pass and the dedup filter. */
  method InferRelations(metadata: ExtractResult) returns (result: seq<Relation>)
    ensures result == Infer(metadata.tables)
    ensures |metadata.tables| == 0 ==> result == []
  {
    var tables := metadata.tables;
    var index, pk := BuildMaps(tables);
    var fks := FkPass(tables);
    var relations := PatternPass(index, pk, tables, fks);
    result := DedupPass(relations);
  }

  // ------------------------------------------------------------ dedup facts

  lemma {:induction false} SeenMembers(s: seq<Relation>)
    ensures forall r :: r in s ==> EndpointKey(r) in Seen(s)
    ensures forall k :: k in Seen(s) ==> exists r :: r in s && EndpointKey(r) == k
  {
    if |s| > 0 {
      SeenMembers(s[..|s| - 1]);
      assert forall r :: r in s ==> r in s[..|s| - 1] || r == s[|s| - 1];
    }
  }

  /**
   * The filter's output is drawn from its input, has pairwise distinct
   * endpoints and loses no endpoint key of the input.
   */
  lemma {:induction false} DedupFacts(s: seq<Relation>)
    ensures forall x :: x in Dedup(s) ==> x in s
    ensures forall i, j :: 0 <= i < j < |Dedup(s)| ==> EndpointKey(Dedup(s)[i]) != EndpointKey(Dedup(s)[j])
    ensures Seen(Dedup(s)) == Seen(s)
  {
    if |s| > 0 {
      var init := s[..|s| - 1];
      var last := s[|s| - 1];
      DedupFacts(init);
      var prev := Dedup(init);
      if EndpointKey(last) !in Seen(init) {
        var r := prev + [last];
        assert r[..|r| - 1] == prev;
        SeenMembers(prev);
        forall i, j | 0 <= i < j < |r| ensures EndpointKey(r[i]) != EndpointKey(r[j]) {
          if j == |r| - 1 {
            assert r[i] in prev;
          }
        }
      }
    }
  }

  /** Filtering a longer list extends the filtered shorter one. */
  lemma {:induction false} DedupPrefix(a: seq<Relation>, b: seq<Relation>)
    ensures |Dedup(a)| <= |Dedup(a + b)| && Dedup(a + b)[..|Dedup(a)|] == Dedup(a)
    ensures forall x :: x in Dedup(a + b)[|Dedup(a)|..] ==> x in b
    decreases |b|
  {
    if |b| == 0 {
      assert a + b == a;
    } else {
      var b' := b[..|b| - 1];
      DedupPrefix(a, b');
      assert (a + b)[..|a + b| - 1] == a + b';
      assert (a + b)[|a + b| - 1] == b[|b| - 1];
      var prev := Dedup(a + b');
      var n := |Dedup(a)|;
      if Dedup(a + b) != prev {
        assert Dedup(a + b) == prev + [b[|b| - 1]];
        assert Dedup(a + b)[n..] == prev[n..] + [b[|b| - 1]];
      }
    }
  }

  /** The first relation with given endpoints survives the filter. */
  lemma {:induction false} DedupKeepsFirst(s: seq<Relation>, i: int)
    requires 0 <= i < |s|
    requires forall j :: 0 <= j < i ==> EndpointKey(s[j]) != EndpointKey(s[i])
    ensures s[i] in Dedup(s)
  {
    DedupKeepsAt(s, i);
    KeptStays(s, i + 1, s[i]);
  }

  /** The relation at `i`, with endpoints new there, is kept by the filter of the prefix it ends. */
  lemma {:induction false} DedupKeepsAt(s: seq<Relation>, i: int)
    requires 0 <= i < |s|
    requires forall j :: 0 <= j < i ==> EndpointKey(s[j]) != EndpointKey(s[i])
    ensures s[i] in Dedup(s[..i + 1])
  {
    var p := s[..i + 1];
    assert p[..i] == s[..i] && p[i] == s[i];
    NotSeen(s[..i], s[i]);
    assert Dedup(p) == Dedup(s[..i]) + [s[i]];
  }

  /** A relation the filter keeps stays kept when more relations follow. */
  lemma {:induction false} KeptStays(s: seq<Relation>, n: int, x: Relation)
    requires 0 <= n <= |s| && x in Dedup(s[..n])
    ensures x in Dedup(s)
  {
    var da := Dedup(s[..n]);
    DedupPrefix(s[..n], s[n..]);
    assert s[..n] + s[n..] == s;
    var d := Dedup(s);
    var j :| 0 <= j < |da| && da[j] == x;
    assert d[..|da|][j] == d[j];
  }

  /** A relation whose endpoints no relation of a list has is not seen in it. */
  lemma {:induction false} NotSeen(s: seq<Relation>, x: Relation)
    requires forall j :: 0 <= j < |s| ==> EndpointKey(s[j]) != EndpointKey(x)
    ensures EndpointKey(x) !in Seen(s)
  {
    SeenMembers(s);
    forall r | r in s
      ensures EndpointKey(r) != EndpointKey(x)
    {
      var j :| 0 <= j < |s| && s[j] == r;
    }
  }

  /** A list without repeated endpoints passes the filter unchanged. */
  lemma {:induction false} DedupIdentity(s: seq<Relation>)
    requires forall i, j :: 0 <= i < j < |s| ==> EndpointKey(s[i]) != EndpointKey(s[j])
    ensures Dedup(s) == s
  {
    if |s| > 0 {
      var init := s[..|s| - 1];
      var last := s[|s| - 1];
      forall i, j | 0 <= i < j < |init| ensures EndpointKey(init[i]) != EndpointKey(init[j]) {
        assert init[i] == s[i] && init[j] == s[j];
      }
      DedupIdentity(init);
      forall j | 0 <= j < |init| ensures EndpointKey(init[j]) != EndpointKey(last) {
        assert init[j] == s[j];
      }
      NotSeen(init, last);
      assert Dedup(s) == init + [last];
    }
  }

  // ------------------------------------------------------------ map facts

  /** Table `j` is the last one whose lower-case name is `k`. */
  predicate IsLastWithLower(tables: seq<Table>, j: int, k: string) {
    0 <= j < |tables| && ToLower(tables[j].name) == k &&
    forall j' :: j < j' < |tables| ==> ToLower(tables[j'].name) != k
  }

  /** The index of the first table whose lower-case name is `k`, or `|tables|`. */
  ghost function FirstLower(tables: seq<Table>, k: string): (f: int)
    ensures 0 <= f <= |tables|
    ensures f < |tables| ==> ToLower(tables[f].name) == k
    ensures forall j :: 0 <= j < f ==> ToLower(tables[j].name) != k
  {
    if |tables| == 0 then 0
    else
      var init := tables[..|tables| - 1];
      var f := FirstLower(init, k);
      if f < |init| then f
      else if ToLower(tables[|tables| - 1].name) == k then |init|
      else |tables|
  }

  /**
   * Looking up a lower-case name gives the original name of the last table
   * with that lower-case name, and nothing when there is none.
   */
  lemma {:induction false} BuildIndexLookup(tables: seq<Table>, k: string)
    ensures IndexGet(BuildIndex(tables), k).None? <==>
            forall j :: 0 <= j < |tables| ==> ToLower(tables[j].name) != k
    ensures IndexGet(BuildIndex(tables), k).Some? ==>
            exists j :: IsLastWithLower(tables, j, k) && tables[j].name == IndexGet(BuildIndex(tables), k).value
  {
    if |tables| > 0 {
      var init := tables[..|tables| - 1];
      var t := tables[|tables| - 1];
      BuildIndexLookup(init, k);
      assert tables == init + [t];
      LookupStep(init, t, BuildIndex(init), k);
    }
  }

  /** One table more: the step of `BuildIndexLookup`. */
  lemma {:induction false} LookupStep(init: seq<Table>, t: Table, prev: NameIndex, k: string)
    requires KeysDistinct(prev)
    requires IndexGet(prev, k).None? <==> forall j :: 0 <= j < |init| ==> ToLower(init[j].name) != k
    requires IndexGet(prev, k).Some? ==> exists j :: IsLastWithLower(init, j, k) && init[j].name == IndexGet(prev, k).value
    ensures var g := IndexGet(IndexSet(prev, ToLower(t.name), t.name), k);
      && (g.None? <==> forall j :: 0 <= j < |init + [t]| ==> ToLower((init + [t])[j].name) != k)
      && (g.Some? ==> exists j :: IsLastWithLower(init + [t], j, k) && (init + [t])[j].name == g.value)
  {
    var tables := init + [t];
    var g := IndexGet(IndexSet(prev, ToLower(t.name), t.name), k);
    IndexSetGet(prev, ToLower(t.name), t.name);
    if ToLower(t.name) == k {
      assert IsLastWithLower(tables, |init|, k);
    } else {
      assert g == IndexGet(prev, k);
      if g.Some? {
        var j :| IsLastWithLower(init, j, k) && init[j].name == g.value;
        assert tables[j] == init[j];
        assert IsLastWithLower(tables, j, k);
      } else {
        forall j | 0 <= j < |tables| ensures ToLower(tables[j].name) != k {
          if j < |init| {
            assert tables[j] == init[j];
          }
        }
      }
    }
  }

  /** Every entry of the map comes from a table. */
  lemma {:induction false} BuildIndexEntries(tables: seq<Table>)
    ensures forall i :: 0 <= i < |BuildIndex(tables)| ==> EntryOfTable(tables, BuildIndex(tables)[i])
  {
    if |tables| > 0 {
      var init := tables[..|tables| - 1];
      var t := tables[|tables| - 1];
      BuildIndexEntries(init);
      var prev := BuildIndex(init);
      var idx := BuildIndex(tables);
      assert idx == IndexSet(prev, ToLower(t.name), t.name);
      forall i | 0 <= i < |idx| ensures EntryOfTable(tables, idx[i]) {
        if idx[i] == (ToLower(t.name), t.name) {
          var j := |tables| - 1;
          assert idx[i] == (ToLower(tables[j].name), tables[j].name);
        } else {
          assert i < |prev| && idx[i] == prev[i];
          assert EntryOfTable(init, prev[i]);
          var j :| 0 <= j < |init| && prev[i] == (ToLower(init[j].name), init[j].name);
          assert init[j] == tables[j];
          assert idx[i] == (ToLower(tables[j].name), tables[j].name);
        }
      }
    }
  }

  /** The entry pairs some table's lower-case name with its name. */
  predicate EntryOfTable(tables: seq<Table>, e: (string, string)) {
    exists j :: 0 <= j < |tables| && e == (ToLower(tables[j].name), tables[j].name)
  }

  /** Map order is the order in which each lower-case name first appears. */
  lemma {:induction false} BuildIndexOrder(tables: seq<Table>)
    ensures forall i, i' :: 0 <= i < i' < |BuildIndex(tables)| ==>
      FirstLower(tables, BuildIndex(tables)[i].0) < FirstLower(tables, BuildIndex(tables)[i'].0) < |tables|
  {
    if |tables| > 0 {
      var init := tables[..|tables| - 1];
      var k := ToLower(tables[|tables| - 1].name);
      var prev := BuildIndex(init);
      var idx := BuildIndex(tables);
      BuildIndexOrder(init);
      IndexKeysAppear(init);
      IndexSetKeys(prev, k, tables[|tables| - 1].name);
      if KeyPos(prev, k) < 0 {
        BuildIndexLookup(init, k);
        forall j | 0 <= j < |init| ensures ToLower(tables[j].name) != k {
          assert tables[j] == init[j];
        }
        FirstLowerNew(tables, k);
      }
      forall i, i' | 0 <= i < i' < |idx|
        ensures FirstLower(tables, idx[i].0) < FirstLower(tables, idx[i'].0) < |tables|
      {
        FirstLowerKept(tables, idx[i].0);
        if i' < |prev| {
          FirstLowerKept(tables, idx[i'].0);
        }
      }
    }
  }

  /** Every key of the map belongs to a table before the end. */
  lemma {:induction false} IndexKeysAppear(tables: seq<Table>)
    ensures forall i :: 0 <= i < |BuildIndex(tables)| ==> FirstLower(tables, BuildIndex(tables)[i].0) < |tables|
  {
    var idx := BuildIndex(tables);
    BuildIndexEntries(tables);
    forall i | 0 <= i < |idx| ensures FirstLower(tables, idx[i].0) < |tables| {
      assert EntryOfTable(tables, idx[i]);
      var j :| 0 <= j < |tables| && idx[i] == (ToLower(tables[j].name), tables[j].name);
    }
  }

  /** `map.set` keeps the order of the keys and appends a new one at the end. */
  lemma {:induction false} IndexSetKeys(idx: NameIndex, k: string, v: string)
    ensures var r := IndexSet(idx, k, v);
      && (forall i :: 0 <= i < |idx| ==> r[i].0 == idx[i].0)
      && (KeyPos(idx, k) >= 0 ==> |r| == |idx|)
      && (KeyPos(idx, k) < 0 ==> |r| == |idx| + 1 && r[|idx|].0 == k)
  {
  }

  /** A name found before the last table is found at the same place with it. */
  lemma {:induction false} FirstLowerKept(tables: seq<Table>, k: string)
    requires |tables| > 0
    ensures FirstLower(tables[..|tables| - 1], k) < |tables| - 1 ==>
      FirstLower(tables, k) == FirstLower(tables[..|tables| - 1], k)
  {
  }

  /** A name no earlier table has is first found at the last table. */
  lemma {:induction false} FirstLowerNew(tables: seq<Table>, k: string)
    requires |tables| > 0 && ToLower(tables[|tables| - 1].name) == k
    requires forall j :: 0 <= j < |tables| - 1 ==> ToLower(tables[j].name) != k
    ensures FirstLower(tables, k) == |tables| - 1
  {
  }

  /** The PK map's keys are exactly the table names. */
  lemma {:induction false} PkMapKeys(tables: seq<Table>)
    ensures forall name :: name in PkMap(tables) <==> exists j :: 0 <= j < |tables| && tables[j].name == name
  {
    if |tables| > 0 {
      var init := tables[..|tables| - 1];
      PkMapKeys(init);
      assert forall j :: 0 <= j < |init| ==> init[j] == tables[j];
    }
  }

  /** Each table name is bound to the first PK column of the last table with that name. */
  lemma {:induction false} PkMapLast(tables: seq<Table>, j: int)
    requires 0 <= j < |tables|
    requires forall j' :: j < j' < |tables| ==> tables[j'].name != tables[j].name
    ensures tables[j].name in PkMap(tables) && PkMap(tables)[tables[j].name] == FirstPk(tables[j])
  {
    var init := tables[..|tables| - 1];
    if j < |tables| - 1 {
      assert init[j] == tables[j];
      PkMapLast(init, j);
    }
  }

  // ------------------------------------------------------------ findTable facts

  /** The segment scan returns the first entry, in map order, that it accepts. */
  lemma {:induction false} SegmentMatchFirst(idx: NameIndex, lower: string)
    ensures SegmentMatch(idx, lower).None? <==> forall i :: 0 <= i < |idx| ==> !SegmentHit(idx[i].0, lower)
    ensures SegmentMatch(idx, lower).Some? ==>
      exists i :: 0 <= i < |idx| && SegmentHit(idx[i].0, lower) && idx[i].1 == SegmentMatch(idx, lower).value &&
        forall i' :: 0 <= i' < i ==> !SegmentHit(idx[i'].0, lower)
  {
    if |idx| > 0 && !SegmentHit(idx[0].0, lower) {
      SegmentMatchFirst(idx[1..], lower);
      assert forall i :: 1 <= i < |idx| ==> idx[1..][i - 1] == idx[i];
      if SegmentMatch(idx, lower).Some? {
        var i :| 0 <= i < |idx[1..]| && SegmentHit(idx[1..][i].0, lower) &&
          idx[1..][i].1 == SegmentMatch(idx, lower).value &&
          forall i' :: 0 <= i' < i ==> !SegmentHit(idx[1..][i'].0, lower);
        assert forall i' :: 0 <= i' < i + 1 ==> !SegmentHit(idx[i'].0, lower) by {
          forall i' | 0 <= i' < i + 1 ensures !SegmentHit(idx[i'].0, lower) {
            if i' > 0 {
              assert idx[i'] == idx[1..][i' - 1];
            }
          }
        }
      }
    }
  }

  /**
   * `findTable` on the tables' map: when some table's lower-case name equals the
   * lower-cased prefix, the result is the last such table's name.
   */
  lemma {:induction false} FindTableExact(tables: seq<Table>, prefix: string, j: int)
    requires 0 <= j < |tables| && ToLower(tables[j].name) == ToLower(prefix)
    ensures exists j' ::
      IsLastWithLower(tables, j', ToLower(prefix)) && FindTable(BuildIndex(tables), prefix) == Some(tables[j'].name)
  {
    BuildIndexLookup(tables, ToLower(prefix));
  }

  /**
   * Otherwise the result is the first entry, in map order, whose key ends with
   * `_prefix` or starts with `prefix_`, and nothing when no entry does.
   */
  lemma {:induction false} FindTableSegment(tables: seq<Table>, prefix: string)
    requires forall j :: 0 <= j < |tables| ==> ToLower(tables[j].name) != ToLower(prefix)
    ensures FindTable(BuildIndex(tables), prefix) == SegmentMatch(BuildIndex(tables), ToLower(prefix))
  {
    BuildIndexLookup(tables, ToLower(prefix));
  }

  /** Whatever `findTable` returns is a table name, hence a key of the PK map. */
  lemma {:induction false} FindTableInPkMap(tables: seq<Table>, prefix: string)
    ensures FindTable(BuildIndex(tables), prefix).Some? ==>
      exists j :: 0 <= j < |tables| && tables[j].name == FindTable(BuildIndex(tables), prefix).value
    ensures FindTable(BuildIndex(tables), prefix).Some? ==> FindTable(BuildIndex(tables), prefix).value in PkMap(tables)
  {
    var idx := BuildIndex(tables);
    var lower := ToLower(prefix);
    BuildIndexEntries(tables);
    PkMapKeys(tables);
    SegmentMatchFirst(idx, lower);
    var r := FindTable(idx, prefix);
    if r.Some? {
      var i: int;
      if IndexGet(idx, lower).Some? {
        i := KeyPos(idx, lower);
      } else {
        i :| 0 <= i < |idx| && SegmentHit(idx[i].0, lower) && idx[i].1 == r.value;
      }
      assert idx[i].1 == r.value;
      assert EntryOfTable(tables, idx[i]);
      var j :| 0 <= j < |tables| && idx[i] == (ToLower(tables[j].name), tables[j].name);
    }
  }

  /** Table `j` is the last one named `name`. */
  predicate IsLastNamed(tables: seq<Table>, j: int, name: string) {
    0 <= j < |tables| && tables[j].name == name &&
    forall j' :: j < j' < |tables| ==> tables[j'].name != name
  }

  /**
   * The `?? 'id'` and `?? col.name` fallbacks never fire: a name `findTable`
   * returns is bound in the PK map to the first PK column of the last table
   * with that name (or `"id"` when that table has no PK).
   */
  lemma {:induction false} TargetPk(tables: seq<Table>, prefix: string)
    requires FindTable(BuildIndex(tables), prefix).Some?
    ensures var target := FindTable(BuildIndex(tables), prefix).value;
      target in PkMap(tables) &&
      exists j :: IsLastNamed(tables, j, target) && PkMap(tables)[target] == FirstPk(tables[j])
  {
    var target := FindTable(BuildIndex(tables), prefix).value;
    FindTableInPkMap(tables, prefix);
    LastNamedExists(tables, target);
    var j :| IsLastNamed(tables, j, target);
    PkMapLast(tables, j);
  }

  lemma {:induction false} LastNamedExists(tables: seq<Table>, name: string)
    requires exists j :: 0 <= j < |tables| && tables[j].name == name
    ensures exists j :: IsLastNamed(tables, j, name)
  {
    var init := tables[..|tables| - 1];
    if tables[|tables| - 1].name == name {
      assert IsLastNamed(tables, |tables| - 1, name);
    } else {
      var j :| 0 <= j < |tables| && tables[j].name == name;
      assert init[j] == tables[j];
      LastNamedExists(init, name);
      var j' :| IsLastNamed(init, j', name);
      assert IsLastNamed(tables, j', name);
    }
  }

  // ------------------------------------------------------------ suffix rules

  /**
   * `_id`: a relation exactly when `findTable` resolves the name without the
   * suffix; HIGH, N:1, to the target's first PK, score 0.9 when the column
   * comment contains the target name and 0.8 otherwise.
   */
  lemma {:induction false} IdSuffixRule(tables: seq<Table>, tableName: string, col: Column)
    requires EndsWith(ToLower(col.name), "_id")
    ensures var lower := ToLower(col.name);
      var target := FindTable(BuildIndex(tables), lower[..|lower| - 3]);
      var out := PatternRelation(Ctx(BuildIndex(tables), PkMap(tables)), tableName, col);
      (out.Some? <==> target.Some?) &&
      (out.Some? ==>
        out.value.sourceTable == tableName && out.value.sourceColumn == col.name &&
        out.value.targetTable == target.value && target.value in PkMap(tables) &&
        out.value.targetColumn == PkMap(tables)[target.value] &&
        out.value.confidence == HIGH && out.value.cardinality == ManyToOne &&
        out.value.score == Some(if col.comment.Some? && Contains(col.comment.value, target.value) then 90 else 80))
  {
    var lower := ToLower(col.name);
    if FindTable(BuildIndex(tables), lower[..|lower| - 3]).Some? {
      TargetPk(tables, lower[..|lower| - 3]);
    }
  }

  /**
   * `_cd`/`_code` (when the name does not end in `_id`): MEDIUM, N:1, score
   * 0.65, to the target's first PK; the name is never used as the target column.
   */
  lemma {:induction false} CodeSuffixRule(tables: seq<Table>, tableName: string, col: Column)
    requires EndsWith(ToLower(col.name), "_cd") || EndsWith(ToLower(col.name), "_code")
    ensures var lower := ToLower(col.name);
      var base := if EndsWith(lower, "_cd") then lower[..|lower| - 3] else lower[..|lower| - 5];
      var target := FindTable(BuildIndex(tables), base);
      var out := PatternRelation(Ctx(BuildIndex(tables), PkMap(tables)), tableName, col);
      (out.Some? <==> target.Some?) &&
      (out.Some? ==>
        out.value.sourceTable == tableName && out.value.sourceColumn == col.name &&
        out.value.targetTable == target.value && target.value in PkMap(tables) &&
        out.value.targetColumn == PkMap(tables)[target.value] &&
        out.value.confidence == MEDIUM && out.value.cardinality == ManyToOne && out.value.score == Some(65))
  {
    var lower := ToLower(col.name);
    assert !EndsWith(lower, "_id") by {
      assert |lower| >= 3 && lower[|lower| - 3..][1] == lower[|lower| - 2];
      if EndsWith(lower, "_cd") {
        assert lower[|lower| - 3..][1] == 'c';
      } else {
        assert lower[|lower| - 5..][3] == lower[|lower| - 2];
        assert lower[|lower| - 2] == 'd' && lower[|lower| - 5..][4] == 'e';
        assert lower[|lower| - 3..][2] == 'e';
      }
    }
    var rule := RuleOf(lower);
    var base := if EndsWith(lower, "_cd") then lower[..|lower| - 3] else lower[..|lower| - 5];
    assert rule == CodeRule(if EndsWith(lower, "_cd") then 3 else 5);
    assert Base(lower, rule) == base;
    if FindTable(BuildIndex(tables), base).Some? {
      TargetPk(tables, base);
    }
  }

  /** `_no` (when no earlier suffix applies): LOW, N:1, score 0.5, to the target's first PK. */
  lemma NoSuffixRule(tables: seq<Table>, tableName: string, col: Column)
    requires EndsWith(ToLower(col.name), "_no")
    ensures var lower := ToLower(col.name);
      var target := FindTable(BuildIndex(tables), lower[..|lower| - 3]);
      var out := PatternRelation(Ctx(BuildIndex(tables), PkMap(tables)), tableName, col);
      (out.Some? <==> target.Some?) &&
      (out.Some? ==>
        out.value.sourceTable == tableName && out.value.sourceColumn == col.name &&
        out.value.targetTable == target.value && target.value in PkMap(tables) &&
        out.value.targetColumn == PkMap(tables)[target.value] &&
        out.value.confidence == LOW && out.value.cardinality == ManyToOne && out.value.score == Some(50))
  {
    var lower := ToLower(col.name);
    assert lower[|lower| - 1] == 'o';
    assert !EndsWith(lower, "_id") && !EndsWith(lower, "_cd") && !EndsWith(lower, "_code");
    if FindTable(BuildIndex(tables), lower[..|lower| - 3]).Some? {
      TargetPk(tables, lower[..|lower| - 3]);
    }
  }

  /** A column with none of the suffixes gets no pattern relation. */
  lemma {:induction false} NoSuffixNoRelation(ctx: Ctx, tableName: string, col: Column)
    requires var lower := ToLower(col.name);
      !EndsWith(lower, "_id") && !EndsWith(lower, "_cd") && !EndsWith(lower, "_code") && !EndsWith(lower, "_no")
    ensures PatternRelation(ctx, tableName, col).None?
  {
  }

  // ------------------------------------------------------------ the pattern pass

  /** `r` is the relation some non-PK column of some table proposes. */
  predicate ProposedFor(ctx: Ctx, tables: seq<Table>, r: Relation) {
    exists t, c :: t in tables && c in t.columns && t.name == r.sourceTable && !c.isPk &&
      PatternRelation(ctx, t.name, c) == Some(r)
  }

  /**
   * What the pattern pass keeps true: the FK keys stay registered, no proposed
   * relation starts at an FK key, the proposed relations have distinct source
   * keys, all registered, and each is the rule's output for a non-PK column.
   */
  predicate PassInv(ctx: Ctx, tables: seq<Table>, fkKeys: set<(string, string)>, st: PassState) {
    fkKeys <= st.registered &&
    (forall r :: r in st.rels ==> SourceKey(r) in st.registered && SourceKey(r) !in fkKeys) &&
    (forall i, j :: 0 <= i < j < |st.rels| ==> SourceKey(st.rels[i]) != SourceKey(st.rels[j])) &&
    (forall r :: r in st.rels ==> ProposedFor(ctx, tables, r))
  }

  lemma {:induction false} ColumnsFoldInv(ctx: Ctx, tables: seq<Table>, t: Table, cols: seq<Column>,
                                          fkKeys: set<(string, string)>, st: PassState)
    requires t in tables && forall c :: c in cols ==> c in t.columns
    requires PassInv(ctx, tables, fkKeys, st)
    ensures PassInv(ctx, tables, fkKeys, ColumnsFold(ctx, t.name, cols, st))
    decreases |cols|
  {
    if |cols| > 0 {
      var init := cols[..|cols| - 1];
      var col := cols[|cols| - 1];
      ColumnsFoldInv(ctx, tables, t, init, fkKeys, st);
      var prev := ColumnsFold(ctx, t.name, init, st);
      var key := (t.name, col.name);
      if key !in prev.registered && !col.isPk && PatternRelation(ctx, t.name, col).Some? {
        var r := PatternRelation(ctx, t.name, col).value;
        var next := PassState(prev.rels + [r], prev.registered + {key});
        assert SourceKey(r) == key;
        assert ProposedFor(ctx, tables, r);
        forall i, j | 0 <= i < j < |next.rels| ensures SourceKey(next.rels[i]) != SourceKey(next.rels[j]) {
          if j == |prev.rels| {
            assert next.rels[i] in prev.rels;
          }
        }
      }
    }
  }

  lemma {:induction false} TablesFoldInv(ctx: Ctx, tables: seq<Table>, ts: seq<Table>, fkKeys: set<(string, string)>)
    requires forall t :: t in ts ==> t in tables
    ensures PassInv(ctx, tables, fkKeys, TablesFold(ctx, ts, PassState([], fkKeys)))
  {
    if |ts| > 0 {
      var init := ts[..|ts| - 1];
      TablesFoldInv(ctx, tables, init, fkKeys);
      var t := ts[|ts| - 1];
      ColumnsFoldInv(ctx, tables, t, t.columns, fkKeys, TablesFold(ctx, init, PassState([], fkKeys)));
    }
  }

  /** Proposed relations are never FK ones and are always N:1. */
  lemma {:induction false} PatternNotFk(ctx: Ctx, tableName: string, col: Column)
    ensures PatternRelation(ctx, tableName, col).Some? ==>
      PatternRelation(ctx, tableName, col).value.confidence != FK &&
      PatternRelation(ctx, tableName, col).value.cardinality == ManyToOne
  {
  }

  // ------------------------------------------------------------ the FK pass

  function FkCount(tables: seq<Table>): nat {
    if |tables| == 0 then 0 else FkCount(tables[..|tables| - 1]) + |tables[|tables| - 1].fkRefs|
  }

  lemma {:induction false} TableFksAt(tableName: string, fks: seq<FkRef>)
    ensures |TableFks(tableName, fks)| == |fks|
    ensures forall k :: 0 <= k < |fks| ==> TableFks(tableName, fks)[k] == FkRelation(tableName, fks[k])
  {
    if |fks| > 0 {
      TableFksAt(tableName, fks[..|fks| - 1]);
    }
  }

  lemma {:induction false} FkRelsPrefix(tables: seq<Table>, m: int)
    requires 0 <= m <= |tables|
    ensures |FkRels(tables)| == FkCount(tables)
    ensures |FkRels(tables[..m])| <= |FkRels(tables)| && FkRels(tables)[..|FkRels(tables[..m])|] == FkRels(tables[..m])
    decreases |tables|
  {
    if |tables| > 0 {
      var init := tables[..|tables| - 1];
      TableFksAt(tables[|tables| - 1].name, tables[|tables| - 1].fkRefs);
      if m == |tables| {
        assert tables[..m] == tables;
        FkRelsPrefix(init, 0);
      } else {
        assert init[..m] == tables[..m];
        FkRelsPrefix(init, m);
      }
    } else {
      assert tables[..m] == tables;
    }
  }

  /**
   * Pass 1 yields exactly one relation per declared foreign key, in table then
   * key order: FK, 1:N, score 1.0, reason `FK constraint: <name>`.
   */
  lemma {:induction false} FkPassExact(tables: seq<Table>, i: int, k: int)
    requires 0 <= i < |tables| && 0 <= k < |tables[i].fkRefs|
    ensures |FkRels(tables)| == FkCount(tables)
    ensures FkCount(tables[..i]) + k < |FkRels(tables)|
    ensures var fk := tables[i].fkRefs[k];
      var r := FkRels(tables)[FkCount(tables[..i]) + k];
      r.sourceTable == tables[i].name && r.sourceColumn == fk.columnName &&
      r.targetTable == fk.refTable && r.targetColumn == fk.refColumn &&
      r.confidence == FK && r.cardinality == OneToMany && r.score == Some(100) &&
      r.reason == Some("FK constraint: " + fk.constraintName)
  {
    FkRelsPrefix(tables, i + 1);
    FkRelsSplit(tables, i);
    TableFksAt(tables[i].name, tables[i].fkRefs);
    InBlock(FkRels(tables), FkRels(tables[..i]), TableFks(tables[i].name, tables[i].fkRefs), k);
    assert FkRels(tables)[FkCount(tables[..i]) + k] == FkRelation(tables[i].name, tables[i].fkRefs[k]);
  }

  /** The relations of the first `i + 1` tables: those of the first `i`, then table `i`'s. */
  lemma {:induction false} FkRelsSplit(tables: seq<Table>, i: int)
    requires 0 <= i < |tables|
    ensures FkRels(tables[..i + 1]) == FkRels(tables[..i]) + TableFks(tables[i].name, tables[i].fkRefs)
    ensures |FkRels(tables[..i])| == FkCount(tables[..i])
  {
    var pre := tables[..i + 1];
    assert pre[..i] == tables[..i] && pre[i] == tables[i];
    FkRelsPrefix(tables[..i], 0);
  }

  /** An element of a block that, after `pre`, begins `all`. */
  lemma {:induction false} InBlock<T>(all: seq<T>, pre: seq<T>, block: seq<T>, k: int)
    requires pre + block <= all && 0 <= k < |block|
    ensures |pre| + k < |all| && all[|pre| + k] == block[k]
  {
    assert (pre + block)[|pre| + k] == block[k];
  }

  /** Every relation of pass 1 is an FK relation of some declared foreign key. */
  lemma {:induction false} FkRelsAreFk(tables: seq<Table>)
    ensures forall r :: r in FkRels(tables) ==> r.confidence == FK
    ensures forall r :: r in FkRels(tables) ==>
      exists i, k :: 0 <= i < |tables| && 0 <= k < |tables[i].fkRefs| && r == FkRelation(tables[i].name, tables[i].fkRefs[k])
  {
    if |tables| > 0 {
      var init := tables[..|tables| - 1];
      var t := tables[|tables| - 1];
      FkRelsAreFk(init);
      TableFksAt(t.name, t.fkRefs);
      forall r | r in FkRels(tables)
        ensures exists i, k :: 0 <= i < |tables| && 0 <= k < |tables[i].fkRefs| && r == FkRelation(tables[i].name, tables[i].fkRefs[k])
      {
        if r in FkRels(init) {
          var i, k :| 0 <= i < |init| && 0 <= k < |init[i].fkRefs| && r == FkRelation(init[i].name, init[i].fkRefs[k]);
          assert init[i] == tables[i];
        } else {
          assert r in TableFks(t.name, t.fkRefs);
          var k :| 0 <= k < |t.fkRefs| && TableFks(t.name, t.fkRefs)[k] == r;
          assert r == FkRelation(tables[|tables| - 1].name, tables[|tables| - 1].fkRefs[k]);
        }
      }
    }
  }

  // ------------------------------------------------------------ the result

  /** No two returned relations share all four endpoints. */
  lemma {:induction false} InferDistinct(tables: seq<Table>)
    ensures forall i, j :: 0 <= i < j < |Infer(tables)| ==> EndpointKey(Infer(tables)[i]) != EndpointKey(Infer(tables)[j])
  {
    var fks := FkRels(tables);
    var st := TablesFold(Ctx(BuildIndex(tables), PkMap(tables)), tables, PassState([], RegKeys(fks)));
    DedupFacts(fks + st.rels);
  }

  /**
   * Every returned FK relation comes from a declared foreign key; every other
   * returned relation is a suffix rule's proposal for a non-PK column whose
   * `table.column` is not the source of any declared foreign key.
   */
  lemma {:induction false} InferSources(tables: seq<Table>)
    ensures forall r :: r in Infer(tables) && r.confidence == FK ==> r in FkRels(tables)
    ensures forall r :: r in Infer(tables) && r.confidence != FK ==>
      SourceKey(r) !in RegKeys(FkRels(tables)) && ProposedFor(Ctx(BuildIndex(tables), PkMap(tables)), tables, r)
  {
    var ctx := Ctx(BuildIndex(tables), PkMap(tables));
    var fks := FkRels(tables);
    var st := TablesFold(ctx, tables, PassState([], RegKeys(fks)));
    DedupFacts(fks + st.rels);
    FkRelsAreFk(tables);
    TablesFoldInv(ctx, tables, tables, RegKeys(fks));
  }

  /** A `table.column` is the source of at most one returned pattern relation. */
  lemma {:induction false} InferOnePatternPerColumn(tables: seq<Table>)
    ensures forall i, j ::
      (0 <= i < j < |Infer(tables)| && Infer(tables)[i].confidence != FK && Infer(tables)[j].confidence != FK)
      ==> SourceKey(Infer(tables)[i]) != SourceKey(Infer(tables)[j])
  {
    var ctx := Ctx(BuildIndex(tables), PkMap(tables));
    var fks := FkRels(tables);
    var st := TablesFold(ctx, tables, PassState([], RegKeys(fks)));
    var out := Infer(tables);
    DedupFacts(fks + st.rels);
    FkRelsAreFk(tables);
    TablesFoldInv(ctx, tables, tables, RegKeys(fks));
    forall i, j | 0 <= i < j < |out| && out[i].confidence != FK && out[j].confidence != FK
      ensures SourceKey(out[i]) != SourceKey(out[j])
    {
      assert out[i] in fks + st.rels && out[j] in fks + st.rels;
      var p :| 0 <= p < |st.rels| && st.rels[p] == out[i];
      var q :| 0 <= q < |st.rels| && st.rels[q] == out[j];
      assert EndpointKey(out[i]) != EndpointKey(out[j]);
      assert p != q;
    }
  }

  /**
   * Each declared foreign key is represented in the result by an FK relation
   * (1:N, score 1.0) with the same four endpoints.
   */
  lemma {:induction false} InferFkCovered(tables: seq<Table>, i: int, k: int)
    requires 0 <= i < |tables| && 0 <= k < |tables[i].fkRefs|
    ensures var fk := tables[i].fkRefs[k];
      exists r :: r in Infer(tables) && r.confidence == FK && r.cardinality == OneToMany && r.score == Some(100) &&
        EndpointKey(r) == (tables[i].name, fk.columnName, fk.refTable, fk.refColumn)
  {
    var ctx := Ctx(BuildIndex(tables), PkMap(tables));
    var fks := FkRels(tables);
    var st := TablesFold(ctx, tables, PassState([], RegKeys(fks)));
    var all := fks + st.rels;
    FkPassExact(tables, i, k);
    var x := fks[FkCount(tables[..i]) + k];
    assert x in all;
    SeenMembers(all);
    DedupFacts(all);
    SeenMembers(Dedup(all));
    assert EndpointKey(x) in Seen(Dedup(all));
    var y :| y in Dedup(all) && EndpointKey(y) == EndpointKey(x);
    TablesFoldInv(ctx, tables, tables, RegKeys(fks));
    assert SourceKey(y) == SourceKey(x) && SourceKey(x) in RegKeys(fks);
    assert y !in st.rels;
    assert y in fks;
    FkRelsAreFk(tables);
  }

  /** FK relations come first: after the first non-FK relation there is no FK one. */
  lemma {:induction false} InferOrder(tables: seq<Table>)
    ensures forall m, m' :: 0 <= m < m' < |Infer(tables)| && Infer(tables)[m].confidence != FK ==>
      Infer(tables)[m'].confidence != FK
  {
    var ctx := Ctx(BuildIndex(tables), PkMap(tables));
    var fks := FkRels(tables);
    var st := TablesFold(ctx, tables, PassState([], RegKeys(fks)));
    var out := Infer(tables);
    DedupPrefix(fks, st.rels);
    DedupFacts(fks);
    FkRelsAreFk(tables);
    TablesFoldInv(ctx, tables, tables, RegKeys(fks));
    var n := |Dedup(fks)|;
    forall m | 0 <= m < |out| ensures (m < n ==> out[m].confidence == FK) && (m >= n ==> out[m].confidence != FK) {
      if m < n {
        assert out[m] == Dedup(fks)[m];
      } else {
        assert out[m] == out[n..][m - n];
        assert out[m] in st.rels;
        var t, c :| t in tables && c in t.columns && t.name == out[m].sourceTable && !c.isPk &&
          PatternRelation(ctx, t.name, c) == Some(out[m]);
        PatternNotFk(ctx, t.name, c);
      }
    }
  }

  // The `order_item` example: `order` has PK `order_id`, `order_item` has a
  // non-PK column `order_id`.
  const ExamplePkCol := Column(1, "order_id", "int", false, "PRI", true, None, None, None)
  const ExampleFkCol := Column(1, "order_id", "int", false, "", false, None, None, None)
  const ExampleOrder := Table("order", None, None, [ExamplePkCol], ["order_id"], [])
  const ExampleItem := Table("order_item", None, None, [ExampleFkCol], [], [])

  lemma {:induction false} ExampleMaps()
    ensures BuildIndex([ExampleOrder, ExampleItem]) == [("order", "order"), ("order_item", "order_item")]
    ensures PkMap([ExampleOrder, ExampleItem]) == map["order" := "order_id", "order_item" := "id"]
    ensures FkRels([ExampleOrder, ExampleItem]) == []
  {
    ExampleIndex();
    ExamplePks();
    ExampleFks();
  }

  lemma {:induction false} ExampleLower()
    ensures ToLower("order") == "order" && ToLower("order_item") == "order_item"
  {
    assert ToLower("order") == "order";
    assert ToLower("order_item") == "order_item";
  }

  lemma {:induction false} ExampleIndex()
    ensures BuildIndex([ExampleOrder, ExampleItem]) == [("order", "order"), ("order_item", "order_item")]
  {
    var tables := [ExampleOrder, ExampleItem];
    ExampleLower();
    assert tables[..1] == [ExampleOrder];
    assert [ExampleOrder][..0] == [];
    assert BuildIndex([ExampleOrder][..0]) == [];
    assert ExampleOrder.name == "order" && ExampleItem.name == "order_item";
    var one := BuildIndex([ExampleOrder]);
    assert one == IndexSet([], "order", "order");
    assert one == [("order", "order")];
    assert KeyPos(one, "order_item") == -1;
    assert BuildIndex(tables) == IndexSet(one, "order_item", "order_item");
  }

  lemma {:induction false} ExamplePks()
    ensures PkMap([ExampleOrder, ExampleItem]) == map["order" := "order_id", "order_item" := "id"]
  {
    var tables := [ExampleOrder, ExampleItem];
    assert tables[..1] == [ExampleOrder];
    assert [ExampleOrder][..0] == [];
    assert PkMap([ExampleOrder]) == map["order" := "order_id"];
  }

  lemma {:induction false} ExampleFks()
    ensures FkRels([ExampleOrder, ExampleItem]) == []
  {
    var tables := [ExampleOrder, ExampleItem];
    assert tables[..1] == [ExampleOrder];
    assert [ExampleOrder][..0] == [];
    assert FkRels([ExampleOrder]) == [];
  }

  lemma {:induction false} ExamplePattern(ctx: Ctx)
    requires ctx.index == [("order", "order"), ("order_item", "order_item")]
    requires ctx.pk == map["order" := "order_id", "order_item" := "id"]
    ensures PatternRelation(ctx, "order_item", ExampleFkCol) == Some(ExampleRelation)
  {
    ExampleRule();
    ExampleFind(ctx.index);
    ExampleEvidence();
  }

  lemma {:induction false} ExampleEvidence()
    ensures "order_id" + " → " + "order" + "." + "order_id" == "order_id → order.order_id"
  {
  }

  lemma {:induction false} ExampleRule()
    ensures ToLower("order_id") == "order_id"
    ensures RuleOf("order_id") == IdRule && Base("order_id", IdRule) == "order"
  {
    assert ToLower("order_id") == "order_id";
    assert EndsWith("order_id", "_id");
    assert "order_id"[..5] == "order";
  }

  lemma {:induction false} ExampleFind(idx: NameIndex)
    requires idx == [("order", "order"), ("order_item", "order_item")]
    ensures FindTable(idx, "order") == Some("order")
  {
    ExampleLower();
    assert idx[..1] == [("order", "order")];
    assert |"order_item"| != |"order"|;
    assert KeyPos(idx, "order") == 0;
  }

  /**
   * A column `order_item.order_id` next to a table `order` whose PK is
   * `order_id` yields the HIGH relation `order_item.order_id -> order.order_id`.
   */
  lemma {:induction false} OrderItemExample()
    ensures Infer([ExampleOrder, ExampleItem]) == [ExampleRelation]
  {
    var tables := [ExampleOrder, ExampleItem];
    ExampleMaps();
    var ctx := Ctx(BuildIndex(tables), PkMap(tables));
    assert RegKeys([]) == {};
    ExampleFold(ctx);
    assert [] + [ExampleRelation] == [ExampleRelation];
    DedupIdentity([ExampleRelation]);
  }

  /** The relation the example infers. */
  const ExampleRelation := Relation("order_item", "order_id", "order", "order_id", HIGH, ManyToOne,
    Some(ID_REASON), Some("order_id → order.order_id"), Some(80))

  /** Pass 2 over the example: the PK column is skipped and `order_id` yields the relation. */
  lemma {:induction false} ExampleFold(ctx: Ctx)
    requires ctx.index == [("order", "order"), ("order_item", "order_item")]
    requires ctx.pk == map["order" := "order_id", "order_item" := "id"]
    ensures TablesFold(ctx, [ExampleOrder, ExampleItem], PassState([], {})).rels == [ExampleRelation]
  {
    var st0 := PassState([], {});
    var tables := [ExampleOrder, ExampleItem];
    assert tables[..1] == [ExampleOrder];
    assert [ExampleOrder][..0] == [];
    assert [ExamplePkCol][..0] == [];
    assert ColumnsFold(ctx, "order", [ExamplePkCol], st0) == st0;
    assert TablesFold(ctx, [ExampleOrder], st0) == st0;
    ExamplePattern(ctx);
    assert [ExampleFkCol][..0] == [];
    assert ColumnsFold(ctx, "order_item", [ExampleFkCol], st0).rels == [ExampleRelation];
  }
}
