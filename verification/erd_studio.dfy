/**
 * The layout helpers of the ERD studio page (frontend/src/pages/ErdStudioPage.tsx):
 * cluster sizing, the canvas aspect target, the re-classification of `ETC`
 * tables by name prefix, and the grid placement of domain clusters.
 *
 * Coordinates are whole pixels. The one floating-point step of the placement,
 * the estimate of how many clusters go in a row, is taken as an argument and
 * clamped to `[1, n]` exactly as the page clamps it.
 */
module ErdStudio {
  import opened Wrappers
  import opened Text
  import opened Schema

  // ------------------------------------------------------------ constants

  const NODE_W: int := 280
  const NODE_H: int := 260
  const GAP_X: int := 40
  const GAP_Y: int := 40
  const CLUSTER_GAP_X: int := 100
  const CLUSTER_GAP_Y: int := 160
  const LABEL_H: int := 60

  // ------------------------------------------------------------ sizing

  /** The least `k` with `k * k >= x`: `Math.ceil(Math.sqrt(x))` on whole numbers. */
  function CeilSqrt(x: nat): (k: nat)
    ensures k * k >= x
    ensures k == 0 || (k - 1) * (k - 1) < x
  {
    CeilSqrtFrom(x, 0)
  }

  function CeilSqrtFrom(x: nat, k: nat): (r: nat)
    requires k <= x || k == 0
    requires k == 0 || (k - 1) * (k - 1) < x
    ensures r * r >= x
    ensures r == 0 || (r - 1) * (r - 1) < x
    decreases x - k
  {
    if k * k >= x then k
    else
      SquareGrows(k);
      CeilSqrtFrom(x, k + 1)
  }

  lemma {:induction false} SquareGrows(k: nat)
    ensures k <= k * k || k == 0
  {
    if k > 0 {
      assert k * k == k * (k - 1) + k;
    }
  }

  /** `domainCols`: columns of a cluster of `count` tables. */
  function DomainCols(count: int): (cols: int)
    ensures 1 <= cols <= 50
    ensures count <= 1 ==> cols == 1
    ensures count > 1 ==> cols == Clamp(CeilSqrt(4 * count), 2, 50)
  {
    if count <= 1 then 1 else Clamp(CeilSqrt(count * 4), 2, 50)
  }

  /** `Math.max(lo, Math.min(hi, x))`. */
  function Clamp(x: int, lo: int, hi: int): int
    requires lo <= hi
  {
    if x < lo then lo else if x > hi then hi else x
  }

  /** Twelve tables: the square root of 48 is about 6.93, so 7 columns. */
  lemma {:induction false} DomainColsExample()
    ensures DomainCols(12) == 7
  {
    assert CeilSqrtFrom(48, 7) == 7;
    assert CeilSqrtFrom(48, 6) == 7;
    assert CeilSqrtFrom(48, 5) == 7;
    assert CeilSqrtFrom(48, 4) == 7;
    assert CeilSqrtFrom(48, 3) == 7;
    assert CeilSqrtFrom(48, 2) == 7;
    assert CeilSqrtFrom(48, 1) == 7;
  }

  /** For two or more tables the grid is at least as wide as tall, unless capped at 50. */
  lemma {:induction false} DomainColsWide(count: int)
    requires count >= 2
    ensures var cols := DomainCols(count); cols == 50 || cols * cols >= 4 * count
  {
  }

  /** `adaptiveCanvasRatio` in tenths: 2.0, 2.5, 3.0, 4.0. */
  function CanvasRatioTenths(domainCount: int): (r: int)
    ensures r in {20, 25, 30, 40}
    ensures domainCount <= 5 <==> r == 20
  {
    if domainCount <= 5 then 20
    else if domainCount <= 15 then 25
    else if domainCount <= 30 then 30
    else 40
  }

  /** More domains never ask for a narrower canvas. */
  lemma {:induction false} CanvasRatioMonotone(a: int, b: int)
    requires a <= b
    ensures CanvasRatioTenths(a) <= CanvasRatioTenths(b)
  {
  }

  // ------------------------------------------------------------ ETC re-classification

  /** The upper-cased text before the first `_`, when that `_` is not at index 0. */
  function Prefix(name: string): (p: Option<string>)
    ensures p.Some? <==> IndexOf(name, '_') > 0
    ensures p.Some? ==> p.value == ToUpper(name[..IndexOf(name, '_')]) && '_' !in p.value
  {
    var sep := IndexOf(name, '_');
    if sep <= 0 then None else Some(ToUpper(name[..sep]))
  }

  /** The tables whose domain is `ETC`, in order. */
  function EtcTables(tables: seq<ErdTable>): (etc: seq<ErdTable>)
    ensures forall t :: t in etc ==> t in tables && t.domain == "ETC"
  {
    if |tables| == 0 then []
    else
      var t := tables[|tables| - 1];
      EtcTables(tables[..|tables| - 1]) + (if t.domain == "ETC" then [t] else [])
  }

  /** How many of `tables` have prefix `p`. */
  function PrefixCount(tables: seq<ErdTable>, p: string): nat {
    if |tables| == 0 then 0
    else
      var t := tables[|tables| - 1];
      PrefixCount(tables[..|tables| - 1], p) + (if Prefix(t.name) == Some(p) then 1 else 0)
  }

  /** `prefixCount` after the counting loop has seen `tables`. */
  function CountMap(tables: seq<ErdTable>): map<string, nat> {
    if |tables| == 0 then map[]
    else
      var m := CountMap(tables[..|tables| - 1]);
      match Prefix(tables[|tables| - 1].name)
      case None => m
      case Some(p) => m[p := Get(m, p) + 1]
  }

  /** `map.get(key) ?? 0`. */
  function Get(m: map<string, nat>, key: string): nat {
    if key in m then m[key] else 0
  }

  lemma {:induction false} CountMapCounts(tables: seq<ErdTable>, p: string)
    ensures Get(CountMap(tables), p) == PrefixCount(tables, p)
    decreases |tables|
  {
    if |tables| > 0 {
      CountMapCounts(tables[..|tables| - 1], p);
    }
  }

  /** The domain an ETC table is given, from the counts over all ETC tables. */
  function Promote(t: ErdTable, counts: map<string, nat>): ErdTable {
    if t.domain != "ETC" then t
    else
      match Prefix(t.name)
      case None => t
      case Some(p) => if Get(counts, p) >= 2 then t.(domain := p) else t
  }

  /** What `refineEtcDomain` returns. */
  function Refined(tables: seq<ErdTable>): seq<ErdTable> {
    var counts := CountMap(EtcTables(tables));
    seq(|tables|, i requires 0 <= i < |tables| => Promote(tables[i], counts))
  }

  /** `refineEtcDomain`: count the prefixes of the ETC tables, then map. */
  method RefineEtcDomain(tables: seq<ErdTable>) returns (out: seq<ErdTable>)
    ensures out == Refined(tables)
  {
    var etcTables := EtcTables(tables);
    if |etcTables| == 0 {
      NoEtcUnchanged(tables);
      return tables;
    }
    var prefixCount: map<string, nat> := map[];
    for i := 0 to |etcTables|
      invariant prefixCount == CountMap(etcTables[..i])
    {
      assert etcTables[..i + 1][..i] == etcTables[..i];
      var t := etcTables[i];
      var sep := IndexOf(t.name, '_');
      if sep <= 0 {
        continue;
      }
      var prefix := ToUpper(t.name[..sep]);
      prefixCount := prefixCount[prefix := Get(prefixCount, prefix) + 1];
    }
    assert etcTables[..|etcTables|] == etcTables;
    out := seq(|tables|, i requires 0 <= i < |tables| => Promote(tables[i], prefixCount));
  }

  lemma {:induction false} NoEtcUnchanged(tables: seq<ErdTable>)
    requires |EtcTables(tables)| == 0
    ensures Refined(tables) == tables
  {
    NoEtcDomains(tables);
  }

  lemma {:induction false} NoEtcDomains(tables: seq<ErdTable>)
    requires |EtcTables(tables)| == 0
    ensures forall i :: 0 <= i < |tables| ==> tables[i].domain != "ETC"
    decreases |tables|
  {
    if |tables| > 0 {
      NoEtcDomains(tables[..|tables| - 1]);
    }
  }

  /**
   * `refineEtcDomain` keeps length and order, touches only the `domain` of ETC
   * tables, and gives an ETC table with prefix `p` the domain `p` exactly when
   * at least two ETC tables share that prefix.
   */
  lemma {:induction false} RefineSpec(tables: seq<ErdTable>)
    ensures var out := Refined(tables);
      && |out| == |tables|
      && (forall i :: 0 <= i < |tables| ==> out[i] == tables[i].(domain := out[i].domain))
      && (forall i :: 0 <= i < |tables| && tables[i].domain != "ETC" ==> out[i] == tables[i])
      && (forall i :: 0 <= i < |tables| && tables[i].domain == "ETC" && Prefix(tables[i].name).None?
            ==> out[i] == tables[i])
      && (forall i :: 0 <= i < |tables| && tables[i].domain == "ETC" && Prefix(tables[i].name).Some?
            ==> out[i].domain == (if PrefixCount(EtcTables(tables), Prefix(tables[i].name).value) >= 2
                                  then Prefix(tables[i].name).value else "ETC"))
  {
    forall p: string {
      CountMapCounts(EtcTables(tables), p);
    }
  }

  lemma {:induction false} PrefixExamples()
    ensures Prefix("log_access") == Some("LOG")
    ensures Prefix("log_error") == Some("LOG")
  {
    LogPrefix("log_access");
    LogPrefix("log_error");
  }

  lemma {:induction false} LogPrefix(name: string)
    requires |name| >= 4 && name[..4] == "log_"
    ensures Prefix(name) == Some("LOG")
  {
    assert name[0] == 'l' && name[1] == 'o' && name[2] == 'g' && name[3] == '_';
    IndexOfAt(name, '_', 3);
    assert name[..3] == "log";
    assert ToUpper("log") == "LOG";
  }

  /** `log_access` and `log_error` are both moved to `LOG`. */
  lemma {:induction false} RefineExample(a: ErdTable, b: ErdTable)
    requires a.name == "log_access" && b.name == "log_error"
    requires a.domain == "ETC" && b.domain == "ETC"
    ensures Refined([a, b]) == [a.(domain := "LOG"), b.(domain := "LOG")]
  {
    PrefixExamples();
    RefinePair(a, b, "LOG");
  }

  /** Two ETC tables sharing a prefix are both moved to it. */
  lemma {:induction false} RefinePair(a: ErdTable, b: ErdTable, p: string)
    requires a.domain == "ETC" && b.domain == "ETC"
    requires Prefix(a.name) == Some(p) && Prefix(b.name) == Some(p)
    ensures Refined([a, b]) == [a.(domain := p), b.(domain := p)]
  {
    EtcTablesSnoc([], a);
    EtcTablesSnoc([a], b);
    assert [a] + [b] == [a, b] && [] + [a] == [a];
    var etc := EtcTables([a, b]);
    assert etc == [a, b];
    CountMapCounts(etc, p);
    PrefixCountSnoc([], a, p);
    assert PrefixCount([a], p) == 1;
    PrefixCountSnoc([a], b, p);
    var counts := CountMap(etc);
    assert Get(counts, p) == 2;
    var r := Refined([a, b]);
    assert r[0] == Promote(a, counts) == a.(domain := p);
    assert r[1] == Promote(b, counts) == b.(domain := p);
  }

  // ------------------------------------------------------------ idempotence

  /** The refinement of each table under fixed counts. */
  function Mapped(tables: seq<ErdTable>, counts: map<string, nat>): (out: seq<ErdTable>)
    ensures |out| == |tables|
    ensures forall i :: 0 <= i < |tables| ==> out[i] == Promote(tables[i], counts)
  {
    seq(|tables|, i requires 0 <= i < |tables| => Promote(tables[i], counts))
  }

  lemma {:induction false} EtcTablesSnoc(xs: seq<ErdTable>, y: ErdTable)
    ensures EtcTables(xs + [y]) == EtcTables(xs) + (if y.domain == "ETC" then [y] else [])
  {
    assert (xs + [y])[..|xs|] == xs;
  }

  lemma {:induction false} PrefixCountSnoc(xs: seq<ErdTable>, y: ErdTable, p: string)
    ensures PrefixCount(xs + [y], p) == PrefixCount(xs, p) + (if Prefix(y.name) == Some(p) then 1 else 0)
    ensures PrefixCount(xs + (if y.domain == "ETC" then [y] else []), p)
         == PrefixCount(xs, p) + (if y.domain == "ETC" && Prefix(y.name) == Some(p) then 1 else 0)
  {
    assert (xs + [y])[..|xs|] == xs;
    assert xs + [] == xs;
  }

  /**
   * After refinement the ETC tables with prefix `p` are all those of the input
   * when `p` was not promoted (or was promoted to `ETC` itself), and none otherwise.
   */
  lemma {:induction false} MappedCounts(tables: seq<ErdTable>, counts: map<string, nat>, p: string)
    ensures PrefixCount(EtcTables(Mapped(tables, counts)), p)
         == if Get(counts, p) >= 2 && p != "ETC" then 0 else PrefixCount(EtcTables(tables), p)
    decreases |tables|
  {
    if |tables| > 0 {
      var init, t := tables[..|tables| - 1], tables[|tables| - 1];
      MappedCounts(init, counts, p);
      assert init + [t] == tables;
      MappedEtcCount(init, t, counts, p);
      PromoteKeepsEtc(t, counts, p);
      PrefixCountSnoc(EtcTables(init), t, p);
    } else {
      assert Mapped(tables, counts) == [];
    }
  }

  lemma {:induction false} MappedEtcCount(init: seq<ErdTable>, t: ErdTable, counts: map<string, nat>, p: string)
    ensures var u := Promote(t, counts);
      PrefixCount(EtcTables(Mapped(init + [t], counts)), p)
        == PrefixCount(EtcTables(Mapped(init, counts)), p)
           + (if u.domain == "ETC" && Prefix(u.name) == Some(p) then 1 else 0)
  {
    var u := Promote(t, counts);
    var mi := Mapped(init, counts);
    MappedSnoc(init, t, counts);
    EtcTablesSnoc(mi, u);
    PrefixCountSnoc(EtcTables(mi), u, p);
  }

  lemma {:induction false} MappedSnoc(xs: seq<ErdTable>, y: ErdTable, counts: map<string, nat>)
    ensures Mapped(xs + [y], counts) == Mapped(xs, counts) + [Promote(y, counts)]
  {
  }

  /** A table counts as an ETC table with prefix `p` after promotion iff it did before and `p` was not moved away. */
  lemma {:induction false} PromoteKeepsEtc(t: ErdTable, counts: map<string, nat>, p: string)
    ensures var u := Promote(t, counts);
      (u.domain == "ETC" && Prefix(u.name) == Some(p))
        == (t.domain == "ETC" && Prefix(t.name) == Some(p) && !(Get(counts, p) >= 2 && p != "ETC"))
  {
  }

  /** Refining twice is refining once: what stays ETC had fewer than two prefix mates. */
  lemma {:induction false} RefineIdempotent(tables: seq<ErdTable>)
    ensures Refined(Refined(tables)) == Refined(tables)
  {
    var etc := EtcTables(tables);
    var counts := CountMap(etc);
    var out := Refined(tables);
    assert out == Mapped(tables, counts);
    var counts2 := CountMap(EtcTables(out));
    forall i | 0 <= i < |out|
      ensures Promote(out[i], counts2) == out[i]
    {
      if out[i].domain == "ETC" && Prefix(out[i].name).Some? {
        var p := Prefix(out[i].name).value;
        CountMapCounts(etc, p);
        CountMapCounts(EtcTables(out), p);
        MappedCounts(tables, counts, p);
      }
    }
  }

  // ------------------------------------------------------------ grouping by domain

  /** The domains in order of first appearance: the key order of the `groups` map. */
  function Domains(tables: seq<ErdTable>): seq<string> {
    if |tables| == 0 then []
    else
      var ds := Domains(tables[..|tables| - 1]);
      var d := tables[|tables| - 1].domain;
      if d in ds then ds else ds + [d]
  }

  /** The tables of domain `d`, in input order. */
  function TablesOf(tables: seq<ErdTable>, d: string): (ts: seq<ErdTable>)
    ensures forall t :: t in ts ==> t in tables && t.domain == d
  {
    if |tables| == 0 then []
    else
      var t := tables[|tables| - 1];
      TablesOf(tables[..|tables| - 1], d) + (if t.domain == d then [t] else [])
  }

  /** The `groups` map after the grouping loop has seen `tables`. */
  function Groups(tables: seq<ErdTable>): map<string, seq<ErdTable>> {
    if |tables| == 0 then map[]
    else
      var g := Groups(tables[..|tables| - 1]);
      var t := tables[|tables| - 1];
      g[t.domain := (if t.domain in g then g[t.domain] else []) + [t]]
  }

  /** Every table's domain is a key, every key has a table, and no key repeats. */
  lemma {:induction false} DomainsFacts(tables: seq<ErdTable>)
    ensures forall i :: 0 <= i < |tables| ==> tables[i].domain in Domains(tables)
    ensures forall d :: d in Domains(tables) ==> TablesOf(tables, d) != []
    ensures forall i, j :: 0 <= i < j < |Domains(tables)| ==> Domains(tables)[i] != Domains(tables)[j]
  {
    DomainsCover(tables);
    DomainsHaveTables(tables);
    DomainsDistinct(tables);
  }

  lemma {:induction false} DomainsCover(tables: seq<ErdTable>)
    ensures forall i :: 0 <= i < |tables| ==> tables[i].domain in Domains(tables)
    decreases |tables|
  {
    if |tables| > 0 {
      var init := tables[..|tables| - 1];
      DomainsCover(init);
      forall i | 0 <= i < |tables| - 1 ensures tables[i].domain in Domains(tables) {
        assert tables[i] == init[i];
      }
    }
  }

  lemma {:induction false} DomainsHaveTables(tables: seq<ErdTable>)
    ensures forall d :: d in Domains(tables) ==> TablesOf(tables, d) != []
    decreases |tables|
  {
    if |tables| > 0 {
      var init := tables[..|tables| - 1];
      DomainsHaveTables(init);
      var t := tables[|tables| - 1];
      forall d | d in Domains(tables)
        ensures TablesOf(tables, d) != []
      {
        if d != t.domain {
          assert d in Domains(init);
          assert |TablesOf(tables, d)| >= |TablesOf(init, d)|;
        }
      }
    }
  }

  lemma {:induction false} DomainsDistinct(tables: seq<ErdTable>)
    ensures forall i, j :: 0 <= i < j < |Domains(tables)| ==> Domains(tables)[i] != Domains(tables)[j]
    decreases |tables|
  {
    if |tables| > 0 {
      var init := tables[..|tables| - 1];
      DomainsDistinct(init);
      var ds, d := Domains(init), tables[|tables| - 1].domain;
      if d !in ds {
        var out := ds + [d];
        forall i, j | 0 <= i < j < |out| ensures out[i] != out[j] {
          if j == |ds| {
            assert out[i] == ds[i];
          } else {
            assert out[i] == ds[i] && out[j] == ds[j];
          }
        }
      }
    }
  }

  lemma {:induction false} GroupsAreTablesOf(tables: seq<ErdTable>)
    ensures forall d :: d in Groups(tables) <==> d in Domains(tables)
    ensures forall d :: d in Groups(tables) ==> Groups(tables)[d] == TablesOf(tables, d)
    decreases |tables|
  {
    if |tables| > 0 {
      var init := tables[..|tables| - 1];
      GroupsAreTablesOf(init);
      forall d | d !in Groups(init)
        ensures TablesOf(init, d) == []
      {
        TablesOfEmpty(init, d);
      }
    }
  }

  lemma {:induction false} TablesOfEmpty(tables: seq<ErdTable>, d: string)
    requires d !in Domains(tables)
    ensures TablesOf(tables, d) == []
    decreases |tables|
  {
    if |tables| > 0 {
      TablesOfEmpty(tables[..|tables| - 1], d);
    }
  }

  /** The grouping loop: a list per domain, keys in order of first appearance. */
  method GroupByDomain(tables: seq<ErdTable>) returns (keys: seq<string>, groups: map<string, seq<ErdTable>>)
    ensures keys == Domains(tables)
    ensures forall d :: d in groups <==> d in keys
    ensures forall d :: d in groups ==> groups[d] == TablesOf(tables, d)
  {
    keys, groups := [], map[];
    for i := 0 to |tables|
      invariant keys == Domains(tables[..i]) && groups == Groups(tables[..i])
    {
      assert tables[..i + 1][..i] == tables[..i];
      var t := tables[i];
      GroupsAreTablesOf(tables[..i]);
      if t.domain !in groups {
        groups := groups[t.domain := []];
        keys := keys + [t.domain];
      }
      groups := groups[t.domain := groups[t.domain] + [t]];
    }
    assert tables[..|tables|] == tables;
    GroupsAreTablesOf(tables);
  }

  // ------------------------------------------------------------ clusters

  /** A domain cluster: its tables in a grid of `cols` columns, and its outer size. */
  datatype Cluster = Cluster(domain: string, tables: seq<ErdTable>, cols: int, clusterW: int, clusterH: int)

  /** `Math.ceil(count / cols)` for positive `cols`. */
  function CeilDiv(count: int, cols: int): int
    requires cols >= 1
  {
    (count + cols - 1) / cols
  }

  /** The entry of `dims` for one domain. */
  function ClusterOf(domain: string, ts: seq<ErdTable>): Cluster {
    var cols := DomainCols(|ts|);
    var rows := CeilDiv(|ts|, cols);
    Cluster(domain, ts, cols, cols * NODE_W + (cols - 1) * GAP_X, LABEL_H + rows * NODE_H + (rows - 1) * GAP_Y)
  }

  /** The domains in sorted order, each with its cluster. */
  function Dims(tables: seq<ErdTable>): (dims: seq<Cluster>)
    ensures |dims| == |Domains(tables)|
  {
    var sorted := SortStrings(Domains(tables));
    assert |sorted| == |multiset(sorted)| == |multiset(Domains(tables))| == |Domains(tables)|;
    seq(|sorted|, k requires 0 <= k < |sorted| => ClusterOf(sorted[k], TablesOf(tables, sorted[k])))
  }

  /** `sorted.map(([domain, domainTables]) => ...)`: one cluster per sorted domain, from its group. */
  function ClustersOf(sorted: seq<string>, groups: map<string, seq<ErdTable>>): (dims: seq<Cluster>)
    requires forall k :: 0 <= k < |sorted| ==> sorted[k] in groups
    ensures |dims| == |sorted|
    ensures forall k :: 0 <= k < |sorted| ==> dims[k] == ClusterOf(sorted[k], groups[sorted[k]])
  {
    seq(|sorted|, k requires 0 <= k < |sorted| => ClusterOf(sorted[k], groups[sorted[k]]))
  }

  /** The groups `GroupByDomain` returns, sorted and mapped, give the reference clusters. */
  lemma {:induction false} GroupsGiveDims(tables: seq<ErdTable>, keys: seq<string>, groups: map<string, seq<ErdTable>>)
    requires keys == Domains(tables)
    requires forall d :: d in groups <==> d in keys
    requires forall d :: d in groups ==> groups[d] == TablesOf(tables, d)
    ensures var sorted := SortStrings(keys);
      && |sorted| == |Domains(tables)|
      && (forall k :: 0 <= k < |sorted| ==> sorted[k] in groups)
      && ClustersOf(sorted, groups) == Dims(tables)
  {
    var sorted := SortStrings(keys);
    assert |sorted| == |Domains(tables)| by {
      assert |multiset(sorted)| == |multiset(keys)|;
    }
    forall k | 0 <= k < |sorted| ensures sorted[k] in groups {
      assert sorted[k] in multiset(sorted);
    }
  }

  // ------------------------------------------------------------ placement

  /** `rowX`, `rowY`, `domainCol` and `rowMaxH` of the placement loop. */
  datatype Cursor = Cursor(rowX: int, rowY: int, domainCol: int, rowMaxH: int)

  /** One turn of the placement loop, after the cluster's tables are placed. */
  function Step(c: Cursor, cl: Cluster, perRow: int): Cursor {
    var rowMaxH := if c.rowMaxH >= cl.clusterH then c.rowMaxH else cl.clusterH;
    if c.domainCol + 1 >= perRow then Cursor(0, c.rowY + rowMaxH + CLUSTER_GAP_Y, 0, 0)
    else Cursor(c.rowX + cl.clusterW + CLUSTER_GAP_X, c.rowY, c.domainCol + 1, rowMaxH)
  }

  /** The cursor when cluster `k` is reached. */
  function CursorAt(dims: seq<Cluster>, k: int, perRow: int): Cursor
    requires 0 <= k <= |dims|
  {
    if k == 0 then Cursor(0, 0, 0, 0) else Step(CursorAt(dims, k - 1, perRow), dims[k - 1], perRow)
  }

  /** The label of a domain cluster: its top-left corner and its width. */
  datatype Label = Label(domain: string, x: int, y: int, width: int)

  function LabelAt(dims: seq<Cluster>, k: int, perRow: int): Label
    requires 0 <= k < |dims|
  {
    var c := CursorAt(dims, k, perRow);
    Label(dims[k].domain, c.rowX, c.rowY, dims[k].clusterW)
  }

  /** The position of table `i` of a cluster whose label is `l`. */
  function NodePos(l: Label, cols: int, i: int): (int, int)
    requires cols >= 1
  {
    (l.x + (i % cols) * (NODE_W + GAP_X), l.y + LABEL_H + (i / cols) * (NODE_H + GAP_Y))
  }

  predicate Shaped(dims: seq<Cluster>) {
    forall k :: 0 <= k < |dims| ==> dims[k] == ClusterOf(dims[k].domain, dims[k].tables)
  }

  /** Every cluster has at least one column. */
  predicate Gridded(dims: seq<Cluster>) {
    forall k :: 0 <= k < |dims| ==> dims[k].cols >= 1
  }

  lemma {:induction false} DimsShaped(tables: seq<ErdTable>)
    ensures Shaped(Dims(tables)) && Gridded(Dims(tables))
  {
  }

  /** `posMap` after the first `n` tables of a cluster are placed. */
  function PlaceCluster(m: map<string, (int, int)>, l: Label, cl: Cluster, n: int): map<string, (int, int)>
    requires 0 <= n <= |cl.tables| && cl.cols >= 1
  {
    if n == 0 then m else PlaceCluster(m, l, cl, n - 1)[cl.tables[n - 1].id := NodePos(l, cl.cols, n - 1)]
  }

  /** `posMap` when cluster `k` is reached. */
  function PosMapAt(dims: seq<Cluster>, k: int, perRow: int): map<string, (int, int)>
    requires 0 <= k <= |dims| && Gridded(dims)
  {
    if k == 0 then map[]
    else PlaceCluster(PosMapAt(dims, k - 1, perRow), LabelAt(dims, k - 1, perRow), dims[k - 1], |dims[k - 1].tables|)
  }

  /** What `computeDomainPositions` returns, for a given clamped-to-`[1, n]` row estimate. */
  function Layout(tables: seq<ErdTable>, rowEstimate: int): (map<string, (int, int)>, seq<Label>) {
    var dims := Dims(tables);
    var n := |dims|;
    DimsShaped(tables);
    if n == 0 then (map[], [])
    else
      var perRow := Clamp(rowEstimate, 1, n);
      (PosMapAt(dims, n, perRow), seq(n, k requires 0 <= k < n => LabelAt(dims, k, perRow)))
  }

  /** The placement loop over the clusters. */
  method PlaceClusters(dims: seq<Cluster>, perRow: int)
    returns (posMap: map<string, (int, int)>, labelMeta: seq<Label>)
    requires Gridded(dims)
    ensures posMap == PosMapAt(dims, |dims|, perRow)
    ensures labelMeta == seq(|dims|, k requires 0 <= k < |dims| => LabelAt(dims, k, perRow))
  {
    posMap, labelMeta := map[], [];
    var rowX, rowY, domainCol, rowMaxH := 0, 0, 0, 0;
    for k := 0 to |dims|
      invariant Cursor(rowX, rowY, domainCol, rowMaxH) == CursorAt(dims, k, perRow)
      invariant posMap == PosMapAt(dims, k, perRow)
      invariant |labelMeta| == k && forall j :: 0 <= j < k ==> labelMeta[j] == LabelAt(dims, j, perRow)
    {
      var cl := dims[k];
      labelMeta := labelMeta + [Label(cl.domain, rowX, rowY, cl.clusterW)];
      ghost var before := posMap;
      for i := 0 to |cl.tables|
        invariant posMap == PlaceCluster(before, LabelAt(dims, k, perRow), cl, i)
      {
        var col := i % cl.cols;
        var row := i / cl.cols;
        posMap := posMap[cl.tables[i].id := (rowX + col * (NODE_W + GAP_X), rowY + LABEL_H + row * (NODE_H + GAP_Y))];
      }
      rowMaxH := if rowMaxH >= cl.clusterH then rowMaxH else cl.clusterH;
      rowX := rowX + cl.clusterW + CLUSTER_GAP_X;
      domainCol := domainCol + 1;
      if domainCol >= perRow {
        domainCol := 0;
        rowX := 0;
        rowY := rowY + rowMaxH + CLUSTER_GAP_Y;
        rowMaxH := 0;
      }
    }
  }

  /** `computeDomainPositions`: group, sort the domains, size the clusters, place them. */
  method ComputeDomainPositions(tables: seq<ErdTable>, rowEstimate: int)
    returns (posMap: map<string, (int, int)>, labelMeta: seq<Label>)
    ensures (posMap, labelMeta) == Layout(tables, rowEstimate)
  {
    var keys, groups := GroupByDomain(tables);
    var sorted := SortStrings(keys);
    GroupsGiveDims(tables, keys, groups);
    if |sorted| == 0 {
      return map[], [];
    }
    var dims := ClustersOf(sorted, groups);
    DimsShaped(tables);
    var perRow := Clamp(rowEstimate, 1, |sorted|);
    posMap, labelMeta := PlaceClusters(dims, perRow);
  }

  // ------------------------------------------------------------ geometry

  /** Two boxes, given by corner and size, share no point (edges may touch). */
  predicate Apart(x1: int, y1: int, w1: int, h1: int, x2: int, y2: int, w2: int, h2: int) {
    x1 + w1 <= x2 || x2 + w2 <= x1 || y1 + h1 <= y2 || y2 + h2 <= y1
  }

  lemma {:induction false} MulMonotone(a: int, b: int, c: int)
    requires a <= b && c >= 0
    ensures a * c <= b * c
  {
    assert b * c - a * c == (b - a) * c;
  }

  /** Row `i / cols` of a grid of `len` cells is below `ceil(len / cols)`. */
  lemma {:induction false} DivBelowCeil(i: int, len: int, cols: int)
    requires 0 <= i < len && cols >= 1
    ensures 0 <= i / cols < CeilDiv(len, cols)
  {
    var q, Q := i / cols, CeilDiv(len, cols);
    assert q * cols <= i;
    assert Q * cols > len - 1;
    if Q <= q {
      MulMonotone(Q, q, cols);
    }
  }

  /** Two different grid lines `step` apart leave room for a cell of `size <= step`. */
  lemma {:induction false} GridGap(a: int, b: int, step: int, size: int)
    requires a != b && 0 <= size <= step
    ensures a * step + size <= b * step || b * step + size <= a * step
  {
    if a < b {
      MulMonotone(a + 1, b, step);
    } else {
      MulMonotone(b + 1, a, step);
    }
  }

  /** Table `i` of a cluster lies inside the cluster box, below the label band. */
  lemma {:induction false} NodeInCluster(cl: Cluster, l: Label, i: int)
    requires cl == ClusterOf(cl.domain, cl.tables) && 0 <= i < |cl.tables|
    ensures var (x, y) := NodePos(l, cl.cols, i);
      && l.x <= x && x + NODE_W <= l.x + cl.clusterW
      && l.y + LABEL_H <= y && y + NODE_H <= l.y + cl.clusterH
  {
    var cols, rows := cl.cols, CeilDiv(|cl.tables|, cl.cols);
    DivBelowCeil(i, |cl.tables|, cols);
    CellFits(i % cols, cols, NODE_W, GAP_X);
    CellFits(i / cols, rows, NODE_H, GAP_Y);
  }

  /** Cell `a` of a line of `n` cells of `size` with `gap` between them ends within the line. */
  lemma {:induction false} CellFits(a: int, n: int, size: int, gap: int)
    requires 0 <= a < n && size >= 0 && gap >= 0
    ensures 0 <= a * (size + gap) && a * (size + gap) + size <= n * size + (n - 1) * gap
  {
    MulMonotone(a + 1, n, size + gap);
    MulMonotone(0, a, size + gap);
    assert (a + 1) * (size + gap) == a * (size + gap) + size + gap;
    assert n * (size + gap) == n * size + (n - 1) * gap + gap;
  }

  /** Two tables of one cluster never overlap. */
  lemma {:induction false} NodesApart(cl: Cluster, l: Label, i: int, j: int)
    requires cl.cols >= 1 && 0 <= i && 0 <= j && i != j
    ensures var (xi, yi) := NodePos(l, cl.cols, i);
      var (xj, yj) := NodePos(l, cl.cols, j);
      Apart(xi, yi, NODE_W, NODE_H, xj, yj, NODE_W, NODE_H)
  {
    var cols := cl.cols;
    if i % cols != j % cols {
      GridGap(i % cols, j % cols, NODE_W + GAP_X, NODE_W);
    } else {
      assert i / cols != j / cols by {
        assert i == (i / cols) * cols + i % cols;
        assert j == (j / cols) * cols + j % cols;
      }
      GridGap(i / cols, j / cols, NODE_H + GAP_Y, NODE_H);
    }
  }

  /** Every earlier cluster lies in an earlier row, or to the left in the current one. */
  predicate Behind(dims: seq<Cluster>, perRow: int, j: int, c: Cursor)
    requires 0 <= j < |dims|
  {
    var l := LabelAt(dims, j, perRow);
    || l.y + dims[j].clusterH + CLUSTER_GAP_Y <= c.rowY
    || (l.y == c.rowY && l.x + dims[j].clusterW + CLUSTER_GAP_X <= c.rowX && dims[j].clusterH <= c.rowMaxH)
  }

  predicate Sized(dims: seq<Cluster>) {
    forall k :: 0 <= k < |dims| ==> dims[k].clusterW >= 0 && dims[k].clusterH >= 0
  }

  lemma {:induction false} ShapedSized(dims: seq<Cluster>)
    requires Shaped(dims)
    ensures Sized(dims)
  {
    forall k | 0 <= k < |dims|
      ensures dims[k].clusterW >= 0 && dims[k].clusterH >= 0
    {
      var n := |dims[k].tables|;
      var cols := DomainCols(n);
      var rows := CeilDiv(n, cols);
      if n > 0 {
        DivBelowCeil(0, n, cols);
        MulMonotone(1, rows, NODE_H + GAP_Y);
      } else {
        assert rows == (cols - 1) / cols == 0;
      }
    }
  }

  /** The invariant of the placement loop: the cursor is past every placed cluster. */
  lemma {:induction false} CursorPast(dims: seq<Cluster>, perRow: int, k: int)
    requires Sized(dims) && 0 <= k <= |dims|
    ensures var c := CursorAt(dims, k, perRow);
      c.rowX >= 0 && c.rowY >= 0 && c.rowMaxH >= 0
    ensures forall j :: 0 <= j < k ==> Behind(dims, perRow, j, CursorAt(dims, k, perRow))
    decreases k
  {
    if k > 0 {
      CursorPast(dims, perRow, k - 1);
      var c := CursorAt(dims, k - 1, perRow);
      var c' := CursorAt(dims, k, perRow);
      assert c' == Step(c, dims[k - 1], perRow);
      forall j | 0 <= j < k
        ensures Behind(dims, perRow, j, c')
      {
        if j < k - 1 {
          assert Behind(dims, perRow, j, c);
        }
      }
    }
  }

  /** Cluster boxes, labels included, are pairwise apart. */
  lemma {:induction false} ClustersApart(dims: seq<Cluster>, perRow: int, j: int, k: int)
    requires Sized(dims) && 0 <= j < k < |dims|
    ensures var lj, lk := LabelAt(dims, j, perRow), LabelAt(dims, k, perRow);
      Apart(lj.x, lj.y, dims[j].clusterW, dims[j].clusterH, lk.x, lk.y, dims[k].clusterW, dims[k].clusterH)
  {
    CursorPast(dims, perRow, k);
    assert Behind(dims, perRow, j, CursorAt(dims, k, perRow));
  }

  /** Every label sits at non-negative coordinates. */
  lemma {:induction false} LabelNonNegative(dims: seq<Cluster>, perRow: int, k: int)
    requires Sized(dims) && 0 <= k < |dims|
    ensures LabelAt(dims, k, perRow).x >= 0 && LabelAt(dims, k, perRow).y >= 0
  {
    CursorPast(dims, perRow, k);
  }

  /** Every slot of the layout is at non-negative coordinates. */
  lemma {:induction false} SlotNonNegative(dims: seq<Cluster>, perRow: int, k: int, i: int)
    requires Shaped(dims) && 0 <= k < |dims| && 0 <= i < |dims[k].tables|
    ensures NodePos(LabelAt(dims, k, perRow), dims[k].cols, i).0 >= 0
    ensures NodePos(LabelAt(dims, k, perRow), dims[k].cols, i).1 >= 0
  {
    ShapedSized(dims);
    LabelNonNegative(dims, perRow, k);
    NodeInCluster(dims[k], LabelAt(dims, k, perRow), i);
  }

  /** Any two different slots of the layout are apart. */
  lemma {:induction false} SlotsApart(dims: seq<Cluster>, perRow: int, k1: int, i1: int, k2: int, i2: int)
    requires Shaped(dims)
    requires 0 <= k1 < |dims| && 0 <= i1 < |dims[k1].tables|
    requires 0 <= k2 < |dims| && 0 <= i2 < |dims[k2].tables|
    requires (k1, i1) != (k2, i2)
    ensures var (x1, y1) := NodePos(LabelAt(dims, k1, perRow), dims[k1].cols, i1);
      var (x2, y2) := NodePos(LabelAt(dims, k2, perRow), dims[k2].cols, i2);
      Apart(x1, y1, NODE_W, NODE_H, x2, y2, NODE_W, NODE_H)
  {
    ShapedSized(dims);
    var l1, l2 := LabelAt(dims, k1, perRow), LabelAt(dims, k2, perRow);
    NodeInCluster(dims[k1], l1, i1);
    NodeInCluster(dims[k2], l2, i2);
    if k1 == k2 {
      NodesApart(dims[k1], l1, i1, i2);
    } else if k1 < k2 {
      ClustersApart(dims, perRow, k1, k2);
    } else {
      ClustersApart(dims, perRow, k2, k1);
    }
  }

  // ------------------------------------------------------------ the position map

  /** For each placed id, the cluster and the index whose slot it got (a ghost companion of `posMap`). */
  function OriginIn(o: map<string, (int, int)>, k: int, cl: Cluster, n: int): map<string, (int, int)>
    requires 0 <= n <= |cl.tables|
  {
    if n == 0 then o else OriginIn(o, k, cl, n - 1)[cl.tables[n - 1].id := (k, n - 1)]
  }

  function OriginAt(dims: seq<Cluster>, k: int): map<string, (int, int)>
    requires 0 <= k <= |dims|
  {
    if k == 0 then map[] else OriginIn(OriginAt(dims, k - 1), k - 1, dims[k - 1], |dims[k - 1].tables|)
  }

  /** `m` holds, for each id of `o`, the slot `o` names, which belongs to that id. */
  predicate Agrees(dims: seq<Cluster>, perRow: int, m: map<string, (int, int)>, o: map<string, (int, int)>, upTo: int)
    requires Gridded(dims) && upTo <= |dims|
  {
    && m.Keys == o.Keys
    && forall id :: id in o ==>
        && 0 <= o[id].0 < upTo && 0 <= o[id].1 < |dims[o[id].0].tables|
        && dims[o[id].0].tables[o[id].1].id == id
        && m[id] == NodePos(LabelAt(dims, o[id].0, perRow), dims[o[id].0].cols, o[id].1)
  }

  lemma {:induction false} PlaceClusterAgrees(dims: seq<Cluster>, perRow: int, k: int,
                                              m: map<string, (int, int)>, o: map<string, (int, int)>, n: int)
    requires Gridded(dims) && 0 <= k < |dims| && 0 <= n <= |dims[k].tables|
    requires Agrees(dims, perRow, m, o, k)
    ensures Agrees(dims, perRow, PlaceCluster(m, LabelAt(dims, k, perRow), dims[k], n), OriginIn(o, k, dims[k], n), k + 1)
    decreases n
  {
    if n > 0 {
      var m1, o1 := PlaceCluster(m, LabelAt(dims, k, perRow), dims[k], n - 1), OriginIn(o, k, dims[k], n - 1);
      PlaceClusterAgrees(dims, perRow, k, m, o, n - 1);
      AgreesPlace(dims, perRow, k, m1, o1, n - 1);
    }
  }

  /** One more table of cluster `k` placed keeps the position and origin maps in agreement. */
  lemma AgreesPlace(dims: seq<Cluster>, perRow: int, k: int, m1: map<string, (int, int)>, o1: map<string, (int, int)>, i: int)
    requires Gridded(dims) && 0 <= k < |dims| && 0 <= i < |dims[k].tables|
    requires Agrees(dims, perRow, m1, o1, k + 1)
    ensures Agrees(dims, perRow, m1[dims[k].tables[i].id := NodePos(LabelAt(dims, k, perRow), dims[k].cols, i)],
                   o1[dims[k].tables[i].id := (k, i)], k + 1)
  {
    var t := dims[k].tables[i].id;
    var m2 := m1[t := NodePos(LabelAt(dims, k, perRow), dims[k].cols, i)];
    var o2 := o1[t := (k, i)];
    forall id | id in o2
      ensures 0 <= o2[id].0 < k + 1 && 0 <= o2[id].1 < |dims[o2[id].0].tables|
      ensures dims[o2[id].0].tables[o2[id].1].id == id
      ensures m2[id] == NodePos(LabelAt(dims, o2[id].0, perRow), dims[o2[id].0].cols, o2[id].1)
    {
      if id != t {
        assert o2[id] == o1[id] && m2[id] == m1[id];
      }
    }
  }

  lemma {:induction false} PosMapAgrees(dims: seq<Cluster>, perRow: int, k: int)
    requires Gridded(dims) && 0 <= k <= |dims|
    ensures Agrees(dims, perRow, PosMapAt(dims, k, perRow), OriginAt(dims, k), k)
    decreases k
  {
    if k > 0 {
      PosMapAgrees(dims, perRow, k - 1);
      PlaceClusterAgrees(dims, perRow, k - 1, PosMapAt(dims, k - 1, perRow), OriginAt(dims, k - 1), |dims[k - 1].tables|);
    }
  }

  lemma {:induction false} PlaceClusterCovers(m: map<string, (int, int)>, l: Label, cl: Cluster, n: int, i: int)
    requires 0 <= n <= |cl.tables| && cl.cols >= 1 && 0 <= i < n
    ensures cl.tables[i].id in PlaceCluster(m, l, cl, n)
    decreases n
  {
    if i < n - 1 {
      PlaceClusterCovers(m, l, cl, n - 1, i);
    }
  }

  lemma {:induction false} PlaceClusterKeeps(m: map<string, (int, int)>, l: Label, cl: Cluster, n: int)
    requires 0 <= n <= |cl.tables| && cl.cols >= 1
    ensures m.Keys <= PlaceCluster(m, l, cl, n).Keys
    decreases n
  {
    if n > 0 {
      PlaceClusterKeeps(m, l, cl, n - 1);
    }
  }

  /** Every table of the first `k` clusters has a position. */
  lemma {:induction false} PosMapCovers(dims: seq<Cluster>, perRow: int, k: int, j: int, i: int)
    requires Gridded(dims) && 0 <= j < k <= |dims| && 0 <= i < |dims[j].tables|
    ensures dims[j].tables[i].id in PosMapAt(dims, k, perRow)
    decreases k
  {
    var prev := PosMapAt(dims, k - 1, perRow);
    var l := LabelAt(dims, k - 1, perRow);
    if j == k - 1 {
      PlaceClusterCovers(prev, l, dims[j], |dims[j].tables|, i);
    } else {
      PosMapCovers(dims, perRow, k - 1, j, i);
      PlaceClusterKeeps(prev, l, dims[k - 1], |dims[k - 1].tables|);
    }
  }

  // ------------------------------------------------------------ what the page gets

  /** Each input table is in the cluster of its domain. */
  lemma {:induction false} TablesOfHas(tables: seq<ErdTable>, i: int)
    requires 0 <= i < |tables|
    ensures tables[i] in TablesOf(tables, tables[i].domain)
    decreases |tables|
  {
    if i < |tables| - 1 {
      TablesOfHas(tables[..|tables| - 1], i);
    }
  }

  /** No tables, no positions and no labels. */
  lemma {:induction false} LayoutEmpty(tables: seq<ErdTable>, rowEstimate: int)
    requires |tables| == 0
    ensures Layout(tables, rowEstimate) == (map[], [])
  {
    assert Domains(tables) == [];
  }

  /** The labels are those of the sorted domains' clusters, in order. */
  lemma {:induction false} LayoutLabelAt(tables: seq<ErdTable>, rowEstimate: int, k: int)
    requires 0 <= k < |Domains(tables)|
    ensures var dims, labels := Dims(tables), Layout(tables, rowEstimate).1;
      && |labels| == |dims|
      && labels[k] == LabelAt(dims, k, Clamp(rowEstimate, 1, |dims|))
      && labels[k].domain == SortStrings(Domains(tables))[k]
  {
  }

  /** The domains of the labels are the sorted distinct domains. */
  lemma {:induction false} LayoutLabelDomains(tables: seq<ErdTable>, rowEstimate: int)
    ensures var labels, sorted := Layout(tables, rowEstimate).1, SortStrings(Domains(tables));
      && |labels| == |sorted| == |Domains(tables)|
      && forall k :: 0 <= k < |labels| ==> labels[k].domain == sorted[k]
  {
    var labels := Layout(tables, rowEstimate).1;
    var n := |Domains(tables)|;
    assert |SortStrings(Domains(tables))| == |multiset(SortStrings(Domains(tables)))| == n;
    if n == 0 {
      assert labels == [];
    } else {
      forall k | 0 <= k < n ensures labels[k].domain == SortStrings(Domains(tables))[k] && |labels| == n {
        LayoutLabelAt(tables, rowEstimate, k);
      }
    }
  }

  /** One label per distinct domain. */
  lemma {:induction false} LayoutLabels(tables: seq<ErdTable>, rowEstimate: int)
    ensures var labels := Layout(tables, rowEstimate).1;
      && |labels| == |Domains(tables)|
      && (forall d :: d in Domains(tables) <==> exists k :: 0 <= k < |labels| && labels[k].domain == d)
  {
    var labels := Layout(tables, rowEstimate).1;
    LayoutLabelDomains(tables, rowEstimate);
    LabelsOfPermutation(labels, SortStrings(Domains(tables)), Domains(tables));
  }

  /** Labels carrying, in order, a permutation of `ds` carry exactly the members of `ds`. */
  lemma {:induction false} LabelsOfPermutation(labels: seq<Label>, sorted: seq<string>, ds: seq<string>)
    requires |labels| == |sorted| && multiset(sorted) == multiset(ds)
    requires forall k :: 0 <= k < |labels| ==> labels[k].domain == sorted[k]
    ensures forall d :: d in ds <==> exists k :: 0 <= k < |labels| && labels[k].domain == d
  {
    forall d
      ensures d in ds <==> exists k :: 0 <= k < |labels| && labels[k].domain == d
    {
      if d in ds {
        assert d in multiset(sorted);
        var k :| 0 <= k < |sorted| && sorted[k] == d;
        assert labels[k].domain == d;
      }
      if exists k :: 0 <= k < |labels| && labels[k].domain == d {
        var k :| 0 <= k < |labels| && labels[k].domain == d;
        assert sorted[k] in multiset(ds);
      }
    }
  }

  /** The labels come in strictly ascending domain order. */
  lemma {:induction false} LayoutLabelsAscending(tables: seq<ErdTable>, rowEstimate: int)
    ensures var labels := Layout(tables, rowEstimate).1;
      forall j, k :: 0 <= j < k < |labels| ==> Less(labels[j].domain, labels[k].domain)
  {
    var sorted := SortStrings(Domains(tables));
    LayoutLabelDomains(tables, rowEstimate);
    DomainsFacts(tables);
    DistinctPermutation(Domains(tables), sorted);
    SortedDistinctStrict(sorted);
  }

  /** Each label is as wide as its domain's cluster and at non-negative coordinates. */
  lemma {:induction false} LayoutLabelPlaced(tables: seq<ErdTable>, rowEstimate: int, k: int)
    requires 0 <= k < |Layout(tables, rowEstimate).1|
    ensures var l := Layout(tables, rowEstimate).1[k];
      && l.width == ClusterOf(l.domain, TablesOf(tables, l.domain)).clusterW
      && l.x >= 0 && l.y >= 0
  {
    var dims := Dims(tables);
    LayoutLabelAt(tables, rowEstimate, k);
    DimsShaped(tables);
    ShapedSized(dims);
    LabelNonNegative(dims, Clamp(rowEstimate, 1, |dims|), k);
  }

  /** Every input table gets a position. */
  lemma {:induction false} LayoutCovers(tables: seq<ErdTable>, rowEstimate: int, i: int)
    requires 0 <= i < |tables|
    ensures tables[i].id in Layout(tables, rowEstimate).0
  {
    var dims := Dims(tables);
    var n := |dims|;
    var sorted := SortStrings(Domains(tables));
    DimsShaped(tables);
    DomainsFacts(tables);
    var d := tables[i].domain;
    assert d in multiset(sorted);
    var k :| 0 <= k < n && sorted[k] == d;
    TablesOfHas(tables, i);
    var j :| 0 <= j < |dims[k].tables| && dims[k].tables[j] == tables[i];
    PosMapCovers(dims, Clamp(rowEstimate, 1, n), n, k, j);
  }

  /**
   * The node boxes of two different ids are apart, and every position is at
   * non-negative coordinates.
   */
  lemma {:induction false} LayoutApart(tables: seq<ErdTable>, rowEstimate: int, a: string, b: string)
    requires a in Layout(tables, rowEstimate).0 && b in Layout(tables, rowEstimate).0 && a != b
    ensures var posMap := Layout(tables, rowEstimate).0;
      && Apart(posMap[a].0, posMap[a].1, NODE_W, NODE_H, posMap[b].0, posMap[b].1, NODE_W, NODE_H)
      && posMap[a].0 >= 0 && posMap[a].1 >= 0
  {
    var dims := Dims(tables);
    var n := |dims|;
    DimsShaped(tables);
    var perRow := Clamp(rowEstimate, 1, n);
    PosMapAgrees(dims, perRow, n);
    var o := OriginAt(dims, n);
    SlotsApart(dims, perRow, o[a].0, o[a].1, o[b].0, o[b].1);
    SlotNonNegative(dims, perRow, o[a].0, o[a].1);
  }

  /** Only input tables get a position. */
  lemma {:induction false} LayoutOnlyTables(tables: seq<ErdTable>, rowEstimate: int, a: string)
    requires a in Layout(tables, rowEstimate).0
    ensures exists i :: 0 <= i < |tables| && tables[i].id == a
  {
    var dims := Dims(tables);
    var n := |dims|;
    DimsShaped(tables);
    PosMapAgrees(dims, Clamp(rowEstimate, 1, n), n);
    var (k, i) := OriginAt(dims, n)[a];
    var sorted := SortStrings(Domains(tables));
    assert dims[k].tables == TablesOf(tables, sorted[k]);
    assert dims[k].tables[i] in tables;
  }

  /** A permutation of a sequence without repeats has no repeats. */
  lemma {:induction false} DistinctPermutation(a: seq<string>, b: seq<string>)
    requires multiset(a) == multiset(b)
    requires forall i, j :: 0 <= i < j < |a| ==> a[i] != a[j]
    ensures forall i, j :: 0 <= i < j < |b| ==> b[i] != b[j]
  {
    forall i, j | 0 <= i < j < |b| ensures b[i] != b[j] {
      MultiplicityOne(a, b[i]);
      TwoCopies(b, i, j);
    }
  }

  /** Equal entries at two indices count twice. */
  lemma {:induction false} TwoCopies(b: seq<string>, i: int, j: int)
    requires 0 <= i < j < |b|
    ensures b[i] == b[j] ==> multiset(b)[b[i]] >= 2
  {
    var rest := b[..i] + b[i + 1..];
    assert b == b[..i] + [b[i]] + b[i + 1..];
    assert rest[j - 1] == b[j];
    assert multiset(b) == multiset(rest) + multiset{b[i]};
  }

  lemma {:induction false} MultiplicityOne(a: seq<string>, x: string)
    requires forall i, j :: 0 <= i < j < |a| ==> a[i] != a[j]
    ensures x in a ==> multiset(a)[x] == 1
    decreases |a|
  {
    if |a| > 0 {
      var init := a[..|a| - 1];
      assert a == init + [a[|a| - 1]];
      MultiplicityOne(init, x);
      if x == a[|a| - 1] {
        assert x !in init;
      }
    }
  }
}
