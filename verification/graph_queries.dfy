/** The read side of the Neo4j repository (src/infrastructure/persistence/neo4j_repo.rs):
    the loops that turn the rows of a query into the response the handlers
    return. Running the Cypher query is the database's business, so each
    method receives what the database answered: `Err(message)` when the
    query could not be executed, or the rows the stream delivered. A column
    that cannot be read is `None`, and the loop substitutes its default. */
module GraphQueries {
  import opened Domain
  import opened Text

  // ---------------------------------------------------------------------
  // Node de-duplication shared by the graph views
  // ---------------------------------------------------------------------

  function IdSet(s: seq<VisNode>): set<string> {
    set v | v in s :: v.id
  }

  /** The nodes of `c` in order, each kept only if no node with its id was
      kept before it or is in `seen`: the `HashSet::insert` guard. */
  function FirstSeen(c: seq<VisNode>, seen: set<string>): seq<VisNode>
    decreases |c|
  {
    if c == [] then []
    else if c[0].id in seen then FirstSeen(c[1..], seen)
    else [c[0]] + FirstSeen(c[1..], seen + {c[0].id})
  }

  /** No two nodes share an id. */
  predicate DistinctIds(s: seq<VisNode>) {
    forall i, j :: 0 <= i < j < |s| ==> s[i].id != s[j].id
  }

  /** The first node of `c` whose id is `id`. */
  function FirstWithId(c: seq<VisNode>, id: string): VisNode
    requires id in IdSet(c)
    decreases |c|
  {
    if c[0].id == id then c[0]
    else
      assert id in IdSet(c[1..]) by {
        var v :| v in c && v.id == id;
        var k :| 0 <= k < |c| && c[k] == v;
        assert c[1..][k - 1] == v;
      }
      FirstWithId(c[1..], id)
  }

  lemma IdSetCons(v: VisNode, s: seq<VisNode>)
    ensures IdSet([v] + s) == {v.id} + IdSet(s)
  {
    assert forall w :: w in [v] + s <==> w == v || w in s;
  }

  /** One step of the `HashSet::insert` guard. */
  lemma FirstSeenStep(v: VisNode, rest: seq<VisNode>, seen: set<string>)
    ensures v.id in seen ==> FirstSeen([v] + rest, seen) == FirstSeen(rest, seen)
    ensures v.id !in seen ==> FirstSeen([v] + rest, seen) == [v] + FirstSeen(rest, seen + {v.id})
  {
    assert ([v] + rest)[0] == v && ([v] + rest)[1..] == rest;
  }

  /** What `if seen.insert(v.id) { nodes.push(v) }` does to the pair. */
  predicate Offered(nodes0: seq<VisNode>, seen0: set<string>, v: VisNode, nodes: seq<VisNode>, seen: set<string>) {
    if v.id in seen0 then nodes == nodes0 && seen == seen0
    else nodes == nodes0 + [v] && seen == seen0 + {v.id}
  }

  /** Offering a node is one step of `FirstSeen`. */
  lemma OfferedStep(nodes0: seq<VisNode>, seen0: set<string>, v: VisNode, nodes: seq<VisNode>, seen: set<string>, rest: seq<VisNode>)
    requires Offered(nodes0, seen0, v, nodes, seen)
    ensures nodes + FirstSeen(rest, seen) == nodes0 + FirstSeen([v] + rest, seen0)
  {
    FirstSeenStep(v, rest, seen0);
    if v.id !in seen0 {
      assert nodes0 + ([v] + FirstSeen(rest, seen)) == (nodes0 + [v]) + FirstSeen(rest, seen);
    }
  }

  /** De-duplication keeps every id of `c` outside `seen`, and no other. */
  lemma {:induction false} FirstSeenIds(c: seq<VisNode>, seen: set<string>)
    ensures IdSet(FirstSeen(c, seen)) == IdSet(c) - seen
    decreases |c|
  {
    if c != [] {
      var rest := c[1..];
      assert c == [c[0]] + rest;
      IdSetCons(c[0], rest);
      if c[0].id in seen {
        FirstSeenIds(rest, seen);
      } else {
        FirstSeenIds(rest, seen + {c[0].id});
        IdSetCons(c[0], FirstSeen(rest, seen + {c[0].id}));
      }
    }
  }

  /** The kept nodes have distinct ids. */
  lemma {:induction false} FirstSeenDistinct(c: seq<VisNode>, seen: set<string>)
    ensures DistinctIds(FirstSeen(c, seen))
    decreases |c|
  {
    if c != [] {
      var rest := c[1..];
      if c[0].id in seen {
        FirstSeenDistinct(rest, seen);
      } else {
        var seen' := seen + {c[0].id};
        FirstSeenDistinct(rest, seen');
        FirstSeenIds(rest, seen');
        var tail := FirstSeen(rest, seen');
        var out := FirstSeen(c, seen);
        assert out == [c[0]] + tail;
        forall i, j | 0 <= i < j < |out| ensures out[i].id != out[j].id {
          assert out[j] == tail[j - 1];
          if i == 0 {
            assert tail[j - 1] in tail;
            assert tail[j - 1].id in IdSet(tail);
          } else {
            assert out[i] == tail[i - 1];
          }
        }
      }
    }
  }

  /** Each kept node is the first node of `c` carrying its id. */
  lemma {:induction false} FirstSeenFirst(c: seq<VisNode>, seen: set<string>)
    ensures forall v :: v in FirstSeen(c, seen) ==> v.id !in seen && v.id in IdSet(c) && v == FirstWithId(c, v.id)
    decreases |c|
  {
    if c != [] {
      var rest := c[1..];
      assert c == [c[0]] + rest;
      IdSetCons(c[0], rest);
      if c[0].id in seen {
        FirstSeenFirst(rest, seen);
      } else {
        var seen' := seen + {c[0].id};
        FirstSeenFirst(rest, seen');
        forall v | v in FirstSeen(c, seen) ensures v.id !in seen && v.id in IdSet(c) && v == FirstWithId(c, v.id) {
          if v != c[0] {
            assert v in FirstSeen(rest, seen');
          }
        }
      }
    }
  }

  // ---------------------------------------------------------------------
  // get_full_graph
  // ---------------------------------------------------------------------

  /** A row of `RETURN n.name, n.category, type(r), m.name, m.category`. */
  datatype FullRow = FullRow(nName: Option<string>, nCat: Option<string>, relType: Option<string>,
                             mName: Option<string>, mCat: Option<string>)

  function SourceNode(row: FullRow): VisNode {
    var name := row.nName.GetOr("Unknown");
    VisNode(name, name, row.nCat.GetOr("Concept"))
  }

  function TargetNode(row: FullRow): VisNode {
    var name := row.mName.GetOr("Unknown");
    VisNode(name, name, row.mCat.GetOr("Concept"))
  }

  function FullEdge(row: FullRow): VisEdge {
    VisEdge(row.nName.GetOr("Unknown"), row.mName.GetOr("Unknown"), row.relType.GetOr("RELATED"))
  }

  /** The nodes in the order the loop offers them: source then target, row by row. */
  function FullCandidates(rows: seq<FullRow>): seq<VisNode>
    decreases |rows|
  {
    if rows == [] then [] else [SourceNode(rows[0]), TargetNode(rows[0])] + FullCandidates(rows[1..])
  }

  lemma FullCandidatesAt(rows: seq<FullRow>, i: nat)
    requires i < |rows|
    ensures FullCandidates(rows[i..]) == [SourceNode(rows[i])] + ([TargetNode(rows[i])] + FullCandidates(rows[i + 1..]))
  {
    assert rows[i..][0] == rows[i] && rows[i..][1..] == rows[i + 1..];
  }

  function FullGraphNodes(rows: seq<FullRow>): seq<VisNode> {
    FirstSeen(FullCandidates(rows), {})
  }

  lemma {:induction false} FullCandidatesContain(rows: seq<FullRow>)
    ensures forall i :: 0 <= i < |rows| ==>
              SourceNode(rows[i]) in FullCandidates(rows) && TargetNode(rows[i]) in FullCandidates(rows)
    decreases |rows|
  {
    if rows != [] {
      FullCandidatesContain(rows[1..]);
      forall i | 0 < i < |rows| ensures rows[i] == rows[1..][i - 1] { }
    }
  }

  /** The view of the whole graph: node ids are unique, every edge endpoint
      is a node, and a node carries the category of the first row that
      named it. */
  lemma FullGraphSpec(rows: seq<FullRow>)
    ensures DistinctIds(FullGraphNodes(rows))
    ensures forall i :: 0 <= i < |rows| ==>
              FullEdge(rows[i]).from in IdSet(FullGraphNodes(rows)) && FullEdge(rows[i]).to in IdSet(FullGraphNodes(rows))
    ensures forall v :: v in FullGraphNodes(rows) ==>
              v.id in IdSet(FullCandidates(rows)) && v == FirstWithId(FullCandidates(rows), v.id)
  {
    FirstSeenIds(FullCandidates(rows), {});
    FirstSeenDistinct(FullCandidates(rows), {});
    FirstSeenFirst(FullCandidates(rows), {});
    FullCandidatesContain(rows);
  }

  /** The `while let` loop of get_full_graph. */
  method GetFullGraph(answer: Result<seq<FullRow>, string>) returns (r: Result<GraphDataResponse, AppError>)
    ensures answer.Err? ==> r == Err(DatabaseError(answer.error))
    ensures answer.Ok? ==> r.Ok? && r.value.nodes == FullGraphNodes(answer.value)
    ensures answer.Ok? ==> |r.value.edges| == |answer.value|
    ensures answer.Ok? ==> forall i :: 0 <= i < |answer.value| ==> r.value.edges[i] == FullEdge(answer.value[i])
  {
    if answer.Err? {
      return Err(DatabaseError(answer.error));
    }
    var rows := answer.value;
    var nodes: seq<VisNode> := [];
    var edges: seq<VisEdge> := [];
    var seen: set<string> := {};
    for i := 0 to |rows|
      invariant nodes + FirstSeen(FullCandidates(rows[i..]), seen) == FullGraphNodes(rows)
      invariant |edges| == i && forall j :: 0 <= j < i ==> edges[j] == FullEdge(rows[j])
    {
      var a, b := SourceNode(rows[i]), TargetNode(rows[i]);
      ghost var nodes0, seen0 := nodes, seen;
      if a.id !in seen {
        seen := seen + {a.id};
        nodes := nodes + [a];
      }
      ghost var nodes1, seen1 := nodes, seen;
      if b.id !in seen {
        seen := seen + {b.id};
        nodes := nodes + [b];
      }
      ghost var rest := FullCandidates(rows[i + 1..]);
      FullCandidatesAt(rows, i);
      OfferedStep(nodes1, seen1, b, nodes, seen, rest);
      OfferedStep(nodes0, seen0, a, nodes1, seen1, [b] + rest);
      edges := edges + [FullEdge(rows[i])];
    }
    assert rows[|rows|..] == [];
    r := Ok(GraphDataResponse(nodes, edges));
  }

  // ---------------------------------------------------------------------
  // find_hybrid_context
  // ---------------------------------------------------------------------

  /** A row of `RETURN chunk.id as id, chunk.content as content, collect(DISTINCT e.name) as entities`. */
  datatype HybridRow = HybridRow(id: Option<string>, content: Option<string>, entities: Option<seq<string>>)

  /** The row loop of find_hybrid_context: one context per row, in row order,
      an unreadable id becoming "unk" and unreadable content or entities
      becoming empty. */
  method FindHybridContext(answer: Result<seq<HybridRow>, string>) returns (r: Result<seq<HybridContext>, AppError>)
    ensures answer.Err? ==> r == Err(DatabaseError(answer.error))
    ensures answer.Ok? ==> r.Ok? && |r.value| == |answer.value|
    ensures answer.Ok? ==> forall i :: 0 <= i < |answer.value| ==>
              r.value[i].chunkId == (if answer.value[i].id.Some? then answer.value[i].id.value else "unk") &&
              r.value[i].content == (if answer.value[i].content.Some? then answer.value[i].content.value else "") &&
              r.value[i].connectedEntities == (if answer.value[i].entities.Some? then answer.value[i].entities.value else [])
  {
    if answer.Err? {
      return Err(DatabaseError(answer.error));
    }
    var rows := answer.value;
    var results: seq<HybridContext> := [];
    for i := 0 to |rows|
      invariant |results| == i
      invariant forall j :: 0 <= j < i ==>
                  results[j] == HybridContext(rows[j].id.GetOr("unk"), rows[j].content.GetOr(""), rows[j].entities.GetOr([]))
    {
      var row := rows[i];
      results := results + [HybridContext(row.id.GetOr("unk"), row.content.GetOr(""), row.entities.GetOr([]))];
    }
    r := Ok(results);
  }

  // ---------------------------------------------------------------------
  // get_concept_neighborhood
  // ---------------------------------------------------------------------

  /** A row of `RETURN center.name, center.category, type(r) as rel,
      startNode(r) = center as is_source, neighbor.name, neighbor.category`. */
  datatype NeighborRow = NeighborRow(cName: Option<string>, cCat: Option<string>, rel: Option<string>,
                                     isSource: Option<bool>, nName: Option<string>, nCat: Option<string>)

  /** A row of the fallback query `RETURN center.name, center.category`. */
  datatype CenterRow = CenterRow(name: Option<string>, cat: Option<string>)

  function CenterNode(row: NeighborRow): VisNode {
    var name := row.cName.GetOr("");
    VisNode(name, name, row.cCat.GetOr("Concept"))
  }

  function NeighborNode(row: NeighborRow): VisNode {
    var name := row.nName.GetOr("");
    VisNode(name, name, row.nCat.GetOr("Concept"))
  }

  function FallbackNode(row: CenterRow): VisNode {
    var name := row.name.GetOr("");
    VisNode(name, name, row.cat.GetOr("Concept"))
  }

  /** The edge of a row, oriented from the centre exactly when the
      relationship starts at the centre (an unreadable flag counts as true). */
  function NeighborEdge(row: NeighborRow): VisEdge {
    var c := row.cName.GetOr("");
    var n := row.nName.GetOr("");
    if row.isSource.GetOr(true) then VisEdge(c, n, row.rel.GetOr("")) else VisEdge(n, c, row.rel.GetOr(""))
  }

  lemma NeighborEdgeOrientation(row: NeighborRow)
    ensures {NeighborEdge(row).from, NeighborEdge(row).to} == {row.cName.GetOr(""), row.nName.GetOr("")}
    ensures row.cName.GetOr("") != row.nName.GetOr("") ==>
              (NeighborEdge(row).from == row.cName.GetOr("") <==> row.isSource.GetOr(true))
    ensures NeighborEdge(row).labelText == row.rel.GetOr("")
  {
  }

  function NeighborCandidates(rows: seq<NeighborRow>): seq<VisNode>
    decreases |rows|
  {
    if rows == [] then [] else [CenterNode(rows[0]), NeighborNode(rows[0])] + NeighborCandidates(rows[1..])
  }

  lemma NeighborCandidatesAt(rows: seq<NeighborRow>, i: nat)
    requires i < |rows|
    ensures NeighborCandidates(rows[i..]) == [CenterNode(rows[i])] + ([NeighborNode(rows[i])] + NeighborCandidates(rows[i + 1..]))
  {
    assert rows[i..][0] == rows[i] && rows[i..][1..] == rows[i + 1..];
  }

  /** The nodes collected before sorting: from the rows, or, when there is
      no row, from the first row of the fallback query. */
  function CollectedNodes(rows: seq<NeighborRow>, fallback: seq<CenterRow>): seq<VisNode> {
    if rows != [] then FirstSeen(NeighborCandidates(rows), {})
    else if fallback == [] then []
    else [FallbackNode(fallback[0])]
  }

  /** Ids in non-decreasing order. */
  predicate SortedIds(s: seq<VisNode>)
    decreases |s|
  {
    |s| < 2 || (StrLe(s[0].id, s[1].id) && SortedIds(s[1..]))
  }

  /** Ids in strictly increasing order. */
  predicate StrictIds(s: seq<VisNode>)
    decreases |s|
  {
    |s| < 2 || (StrLe(s[0].id, s[1].id) && s[0].id != s[1].id && StrictIds(s[1..]))
  }

  /** Inserts `x` before the first node whose id is not smaller. */
  function InsertById(x: VisNode, s: seq<VisNode>): (r: seq<VisNode>)
    ensures |r| == |s| + 1
    ensures multiset(r) == multiset(s) + multiset{x}
    ensures r[0] == x || (s != [] && r[0] == s[0])
    decreases |s|
  {
    if s == [] then [x]
    else if StrLe(x.id, s[0].id) then [x] + s
    else
      assert s == [s[0]] + s[1..];
      [s[0]] + InsertById(x, s[1..])
  }

  /** `sort_by(|a, b| a.id.cmp(&b.id))`. */
  function SortById(s: seq<VisNode>): (r: seq<VisNode>)
    ensures multiset(r) == multiset(s)
    decreases |s|
  {
    if s == [] then []
    else
      assert s == [s[0]] + s[1..];
      InsertById(s[0], SortById(s[1..]))
  }

  lemma {:induction false} InsertByIdSorted(x: VisNode, s: seq<VisNode>)
    requires SortedIds(s)
    ensures SortedIds(InsertById(x, s))
    decreases |s|
  {
    if s != [] && !StrLe(x.id, s[0].id) {
      StrLeTotal(x.id, s[0].id);
      InsertByIdSorted(x, s[1..]);
      var t := InsertById(x, s[1..]);
      assert ([s[0]] + t)[1..] == t;
    } else if s != [] {
      assert ([x] + s)[1..] == s;
    }
  }

  lemma {:induction false} SortByIdSorted(s: seq<VisNode>)
    ensures SortedIds(SortById(s))
    decreases |s|
  {
    if s != [] {
      SortByIdSorted(s[1..]);
      InsertByIdSorted(s[0], SortById(s[1..]));
    }
  }

  /** `dedup_by(|a, b| a.id == b.id)`: of each run of consecutive nodes with
      the same id only the first stays. */
  function DedupById(s: seq<VisNode>): seq<VisNode>
    decreases |s|
  {
    if |s| < 2 then s
    else if s[0].id == s[1].id then DedupById([s[0]] + s[2..])
    else [s[0]] + DedupById(s[1..])
  }

  /** De-duplicating a sorted sequence leaves it strictly sorted, with the
      same first node and the same ids. */
  lemma {:induction false} DedupByIdSpec(s: seq<VisNode>)
    requires SortedIds(s)
    ensures StrictIds(DedupById(s))
    ensures IdSet(DedupById(s)) == IdSet(s)
    ensures s != [] ==> DedupById(s) != [] && DedupById(s)[0] == s[0]
    decreases |s|
  {
    if |s| >= 2 {
      assert s == [s[0]] + s[1..];
      assert s[1..] == [s[1]] + s[2..];
      IdSetCons(s[0], s[1..]);
      IdSetCons(s[1], s[2..]);
      if s[0].id == s[1].id {
        var t := [s[0]] + s[2..];
        IdSetCons(s[0], s[2..]);
        assert t[1..] == s[2..];
        assert |s| > 2 ==> t[1] == s[2];
        DedupByIdSpec(t);
      } else {
        DedupByIdSpec(s[1..]);
        var d := DedupById(s[1..]);
        IdSetCons(s[0], d);
        assert ([s[0]] + d)[1..] == d;
      }
    }
  }

  /** In a strictly sorted sequence every later id is larger than the first. */
  lemma {:induction false} StrictIdsBelow(s: seq<VisNode>)
    requires StrictIds(s) && s != []
    ensures forall v :: v in s[1..] ==> StrLe(s[0].id, v.id) && s[0].id != v.id
    decreases |s|
  {
    if |s| >= 2 {
      StrictIdsBelow(s[1..]);
      forall v | v in s[1..] ensures StrLe(s[0].id, v.id) && s[0].id != v.id {
        if v != s[1] {
          assert v in s[1..][1..];
          StrLeTransitive(s[0].id, s[1].id, v.id);
          if s[0].id == v.id {
            StrLeAntisymmetric(s[0].id, s[1].id);
          }
        }
      }
    }
  }

  lemma {:induction false} StrictIdsDistinct(s: seq<VisNode>)
    requires StrictIds(s)
    ensures DistinctIds(s)
    decreases |s|
  {
    if |s| >= 2 {
      StrictIdsDistinct(s[1..]);
      StrictIdsBelow(s);
      forall i, j | 0 <= i < j < |s| ensures s[i].id != s[j].id {
        if i == 0 {
          assert s[j] in s[1..];
        } else {
          assert s[i] == s[1..][i - 1] && s[j] == s[1..][j - 1];
        }
      }
    }
  }

  function NeighborhoodNodes(rows: seq<NeighborRow>, fallback: seq<CenterRow>): seq<VisNode> {
    DedupById(SortById(CollectedNodes(rows, fallback)))
  }

  lemma {:induction false} NeighborCandidatesContain(rows: seq<NeighborRow>)
    ensures forall i :: 0 <= i < |rows| ==>
              CenterNode(rows[i]) in NeighborCandidates(rows) && NeighborNode(rows[i]) in NeighborCandidates(rows)
    decreases |rows|
  {
    if rows != [] {
      NeighborCandidatesContain(rows[1..]);
      forall i | 0 < i < |rows| ensures rows[i] == rows[1..][i - 1] { }
    }
  }

  /** Sorting and de-duplication leave the collected ids strictly sorted. */
  lemma NeighborhoodSorted(rows: seq<NeighborRow>, fallback: seq<CenterRow>)
    ensures StrictIds(NeighborhoodNodes(rows, fallback)) && DistinctIds(NeighborhoodNodes(rows, fallback))
    ensures IdSet(NeighborhoodNodes(rows, fallback)) == IdSet(CollectedNodes(rows, fallback))
  {
    var c := CollectedNodes(rows, fallback);
    var sorted := SortById(c);
    SortByIdSorted(c);
    DedupByIdSpec(sorted);
    StrictIdsDistinct(NeighborhoodNodes(rows, fallback));
    assert IdSet(sorted) == IdSet(c) by {
      assert forall v :: v in sorted <==> v in multiset(sorted);
      assert forall v :: v in c <==> v in multiset(c);
    }
  }

  /** Both ends of every edge are among the collected ids. */
  lemma NeighborhoodEdgeEnds(rows: seq<NeighborRow>, fallback: seq<CenterRow>)
    ensures forall i :: 0 <= i < |rows| ==>
              NeighborEdge(rows[i]).from in IdSet(CollectedNodes(rows, fallback)) &&
              NeighborEdge(rows[i]).to in IdSet(CollectedNodes(rows, fallback))
  {
    if rows != [] {
      FirstSeenIds(NeighborCandidates(rows), {});
      NeighborCandidatesContain(rows);
    }
  }

  /** The neighbourhood view: nodes strictly sorted by id (so without
      duplicates), every edge endpoint is a node, and when the concept has no
      relationship the view is the fallback node alone, or empty. */
  lemma NeighborhoodSpec(rows: seq<NeighborRow>, fallback: seq<CenterRow>)
    ensures StrictIds(NeighborhoodNodes(rows, fallback)) && DistinctIds(NeighborhoodNodes(rows, fallback))
    ensures forall i :: 0 <= i < |rows| ==>
              NeighborEdge(rows[i]).from in IdSet(NeighborhoodNodes(rows, fallback)) &&
              NeighborEdge(rows[i]).to in IdSet(NeighborhoodNodes(rows, fallback))
    ensures rows == [] && fallback != [] ==> NeighborhoodNodes(rows, fallback) == [FallbackNode(fallback[0])]
    ensures rows == [] && fallback == [] ==> NeighborhoodNodes(rows, fallback) == []
  {
    NeighborhoodSorted(rows, fallback);
    NeighborhoodEdgeEnds(rows, fallback);
    if rows == [] && fallback != [] {
      var c := CollectedNodes(rows, fallback);
      assert SortById(c) == InsertById(c[0], SortById([]));
    }
  }

  /** The row loop of get_concept_neighborhood: the `HashSet`-guarded nodes
      and one oriented edge per row. */
  method CollectNeighborRows(rows: seq<NeighborRow>) returns (nodes: seq<VisNode>, edges: seq<VisEdge>)
    ensures nodes == FirstSeen(NeighborCandidates(rows), {})
    ensures |edges| == |rows| && forall i :: 0 <= i < |rows| ==> edges[i] == NeighborEdge(rows[i])
  {
    nodes, edges := [], [];
    var seen: set<string> := {};
    for i := 0 to |rows|
      invariant nodes + FirstSeen(NeighborCandidates(rows[i..]), seen) == FirstSeen(NeighborCandidates(rows), {})
      invariant |edges| == i && forall j :: 0 <= j < i ==> edges[j] == NeighborEdge(rows[j])
    {
      var a, b := CenterNode(rows[i]), NeighborNode(rows[i]);
      ghost var nodes0, seen0 := nodes, seen;
      if a.id !in seen {
        seen := seen + {a.id};
        nodes := nodes + [a];
      }
      ghost var nodes1, seen1 := nodes, seen;
      if b.id !in seen {
        seen := seen + {b.id};
        nodes := nodes + [b];
      }
      ghost var rest := NeighborCandidates(rows[i + 1..]);
      NeighborCandidatesAt(rows, i);
      OfferedStep(nodes1, seen1, b, nodes, seen, rest);
      OfferedStep(nodes0, seen0, a, nodes1, seen1, [b] + rest);
      edges := edges + [NeighborEdge(rows[i])];
    }
    assert rows[|rows|..] == [];
  }

  /** get_concept_neighborhood: the row loop, the fallback query and the
      final sort and de-duplication. The fallback answer is consulted only
      when the main query returned no row. */
  method GetConceptNeighborhood(answer: Result<seq<NeighborRow>, string>, fallback: Result<seq<CenterRow>, string>)
    returns (r: Result<GraphDataResponse, AppError>)
    ensures answer.Err? ==> r == Err(DatabaseError(answer.error))
    ensures answer.Ok? && answer.value == [] && fallback.Err? ==> r == Err(DatabaseError(fallback.error))
    ensures answer.Ok? && (answer.value != [] || fallback.Ok?) ==>
              r.Ok? && r.value.nodes == NeighborhoodNodes(answer.value, if fallback.Ok? then fallback.value else [])
    ensures answer.Ok? && r.Ok? ==> |r.value.edges| == |answer.value|
    ensures answer.Ok? && r.Ok? ==> forall i :: 0 <= i < |answer.value| ==> r.value.edges[i] == NeighborEdge(answer.value[i])
  {
    if answer.Err? {
      return Err(DatabaseError(answer.error));
    }
    var rows := answer.value;
    var nodes, edges := CollectNeighborRows(rows);
    var relationsFound := rows != [];
    if !relationsFound {
      if fallback.Err? {
        return Err(DatabaseError(fallback.error));
      }
      if fallback.value != [] {
        nodes := nodes + [FallbackNode(fallback.value[0])];
      }
    }
    nodes := SortById(nodes);
    nodes := DedupById(nodes);
    r := Ok(GraphDataResponse(nodes, edges));
  }

  // ---------------------------------------------------------------------
  // get_graph_context_for_reasoning
  // ---------------------------------------------------------------------

  /** A row of `RETURN n.name, type(r), m.name`. */
  datatype ContextRow = ContextRow(n: Option<string>, rel: Option<string>, m: Option<string>)

  const EmptyGraphText: string := "El grafo está vacío."

  /** `format!("({}) -[{}]-> ({})\n", n, r, m)`. */
  function ContextLine(row: ContextRow): (line: string)
    ensures line != [] && line[|line| - 1] == '\n'
  {
    "(" + row.n.GetOr("") + ") -[" + row.rel.GetOr("") + "]-> (" + row.m.GetOr("") + ")\n"
  }

  function ContextLines(rows: seq<ContextRow>): (lines: seq<string>)
    ensures |lines| == |rows| && forall i :: 0 <= i < |rows| ==> lines[i] == ContextLine(rows[i])
  {
    seq(|rows|, i requires 0 <= i < |rows| => ContextLine(rows[i]))
  }

  /** The text the reasoning pass receives: one line per row, or the
      empty-graph sentence when there is no row. */
  function ContextText(rows: seq<ContextRow>): string {
    var text := Concat(ContextLines(rows));
    if text == [] then EmptyGraphText else text
  }

  lemma {:induction false} ConcatLinesEndsInNewline(lines: seq<string>)
    requires lines != [] && forall i :: 0 <= i < |lines| ==> lines[i] != [] && lines[i][|lines[i]| - 1] == '\n'
    ensures Concat(lines) != [] && Concat(lines)[|Concat(lines)| - 1] == '\n'
  {
    var last := lines[|lines| - 1];
    assert lines == lines[..|lines| - 1] + [last];
    ConcatAppend(lines[..|lines| - 1], [last]);
    ConcatOne(last);
  }

  /** The context is the empty-graph sentence exactly when there is no row;
      otherwise it is the rows' lines, in order. */
  lemma ContextTextSpec(rows: seq<ContextRow>)
    ensures ContextText(rows) == EmptyGraphText <==> rows == []
    ensures rows != [] ==> ContextText(rows) == Concat(ContextLines(rows))
  {
    if rows != [] {
      ConcatLinesEndsInNewline(ContextLines(rows));
      assert EmptyGraphText[|EmptyGraphText| - 1] == '.';
    }
  }

  /** Row i's line sits in the context, in row order, right after the lines
      of the rows before it. */
  lemma ContextLineAt(rows: seq<ContextRow>, i: nat)
    requires i < |rows|
    ensures var offset := |Concat(ContextLines(rows)[..i])|;
            offset + |ContextLine(rows[i])| <= |ContextText(rows)| &&
            ContextText(rows)[offset..offset + |ContextLine(rows[i])|] == ContextLine(rows[i])
  {
    var lines := ContextLines(rows);
    ContextTextSpec(rows);
    ConcatSlice(lines, i);
    assert lines[i] == ContextLine(rows[i]);
    assert ContextText(rows) == Concat(lines);
  }

  /** The `context.push_str` loop of get_graph_context_for_reasoning. */
  method GetGraphContextForReasoning(answer: Result<seq<ContextRow>, string>) returns (r: Result<string, AppError>)
    ensures answer.Err? ==> r == Err(DatabaseError(answer.error))
    ensures answer.Ok? ==> r == Ok(ContextText(answer.value))
  {
    if answer.Err? {
      return Err(DatabaseError(answer.error));
    }
    var rows := answer.value;
    var lines := ContextLines(rows);
    var context: string := [];
    for i := 0 to |rows|
      invariant context + Concat(lines[i..]) == Concat(lines)
    {
      assert lines[i..][0] == lines[i] && lines[i..][1..] == lines[i + 1..];
      context := context + ContextLine(rows[i]);
    }
    assert lines[|rows|..] == [];
    assert context == Concat(lines);
    if context == [] {
      return Ok(EmptyGraphText);
    }
    r := Ok(context);
  }
}
