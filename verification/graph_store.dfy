/** The write side of the Neo4j repository (src/infrastructure/persistence/neo4j_repo.rs).

    The database is modelled by its abstract content: the stored chunks, the
    entity nodes (name -> category), the typed edges between entities with
    their properties, and the MENTIONS links from chunks to entities. The
    Cypher statements become functions on that content with MERGE / ON CREATE
    semantics, and the class `Neo4jRepo` runs them the way the source does,
    statement by statement inside a transaction that is committed only at the
    end. A failing statement is injected by a fault parameter: the database is
    external, so when it fails is an input of the model. */
module GraphStore {
  import opened Domain
  import opened Text

  /** A (:DocumentChunk) node. */
  datatype StoredChunk = StoredChunk(id: string, content: string, embedding: Embedding)

  /** A relationship (a)-[:kind]->(b) between entities, identified as MERGE identifies it. */
  datatype EdgeKey = EdgeKey(source: string, kind: string, target: string)

  /** The properties of a relationship; only inferred edges set them, on creation. */
  datatype EdgeProps = EdgeProps(reasoning: Option<string>, aiGenerated: bool)

  /** A (chunk)-[:MENTIONS]->(entity) relationship. */
  datatype Mention = Mention(chunkId: string, entity: string)

  datatype StoreState = StoreState(
    chunks: seq<StoredChunk>,
    entities: map<string, string>,
    edges: map<EdgeKey, EdgeProps>,
    mentions: set<Mention>)

  /** The database reports an error on statement number `step` of a
      transaction (0 is opening it, the last is the commit), with `message`. */
  datatype DbFault = DbFault(step: nat, message: string)

  predicate FailsAt(fault: Option<DbFault>, step: nat) {
    fault.Some? && fault.value.step == step
  }

  /** The content of the store after a successful save_chunk. */
  function SaveChunkEffect(s: StoreState, id: string, content: string, embedding: Embedding): StoreState {
    s.(chunks := s.chunks + [StoredChunk(id, content, embedding)])
  }

  /** Whether the save_graph transaction for `data` fails under `fault`. */
  predicate SaveGraphFails(data: KnowledgeExtraction, fault: Option<DbFault>) {
    fault.Some? && fault.value.step <= SaveGraphLastStep(data)
  }

  // ---------------------------------------------------------------------
  // Relation-type normalisation
  // ---------------------------------------------------------------------

  function ReplaceSpaces(s: string): (r: string)
    ensures |r| == |s|
    ensures forall i :: 0 <= i < |s| ==> r[i] == (if s[i] == ' ' then '_' else s[i])
  {
    seq(|s|, i requires 0 <= i < |s| => if s[i] == ' ' then '_' else s[i])
  }

  /** `relation_type.replace(" ", "_").to_uppercase()`: the edge kind of a relation type. */
  function NormalizeRelationType(t: string): string {
    ToUpper(ReplaceSpaces(t))
  }

  lemma {:induction false} UpperOfNoSpaceNoLower(c: char)
    requires c != ' '
    ensures forall i :: 0 <= i < |UpperOf(c)| ==> UpperOf(c)[i] != ' ' && !IsAsciiLower(UpperOf(c)[i])
    ensures forall i :: 0 <= i < |UpperOf(c)| ==> UpperOf(UpperOf(c)[i]) == [UpperOf(c)[i]]
  {
  }

  /** Upper-casing a string that has no space and no ASCII lower-case letter
      keeps both properties; upper-casing again changes nothing. */
  lemma {:induction false} ToUpperProperties(s: string)
    requires forall i :: 0 <= i < |s| ==> s[i] != ' '
    ensures forall i :: 0 <= i < |ToUpper(s)| ==> ToUpper(s)[i] != ' ' && !IsAsciiLower(ToUpper(s)[i])
    ensures ToUpper(ToUpper(s)) == ToUpper(s)
    decreases |s|
  {
    if s != [] {
      ToUpperProperties(s[1..]);
      UpperOfNoSpaceNoLower(s[0]);
      ToUpperAppend(UpperOf(s[0]), ToUpper(s[1..]));
      ToUpperFixed(UpperOf(s[0]));
    }
  }

  lemma {:induction false} ToUpperAppend(a: string, b: string)
    ensures ToUpper(a + b) == ToUpper(a) + ToUpper(b)
    decreases |a|
  {
    if a == [] {
      assert a + b == b;
    } else {
      assert (a + b)[0] == a[0] && (a + b)[1..] == a[1..] + b;
      ToUpperAppend(a[1..], b);
    }
  }

  lemma {:induction false} ToUpperFixed(s: string)
    requires forall i :: 0 <= i < |s| ==> UpperOf(s[i]) == [s[i]]
    ensures ToUpper(s) == s
    decreases |s|
  {
    if s != [] {
      ToUpperFixed(s[1..]);
      assert s == [s[0]] + s[1..];
    }
  }

  /** The edge kind has no space and no lower-case ASCII letter, and
      normalising it again gives it back. */
  lemma NormalizeRelationTypeSpec(t: string)
    ensures forall i :: 0 <= i < |NormalizeRelationType(t)| ==>
              NormalizeRelationType(t)[i] != ' ' && !IsAsciiLower(NormalizeRelationType(t)[i])
    ensures NormalizeRelationType(NormalizeRelationType(t)) == NormalizeRelationType(t)
  {
    var r := ReplaceSpaces(t);
    ToUpperProperties(r);
    var n := ToUpper(r);
    assert ReplaceSpaces(n) == n;
  }

  /** "same as" is stored under the edge kind SAME_AS. */
  lemma NormalizeSameAs()
    ensures NormalizeRelationType("same as") == "SAME_AS"
  {
    assert ReplaceSpaces("same as") == "same_as";
    assert ToUpper("same_as") == "SAME_AS";
  }

  // ---------------------------------------------------------------------
  // MERGE semantics of save_graph
  // ---------------------------------------------------------------------

  function NameSet(es: seq<ExtractedEntity>): set<string> {
    set i | 0 <= i < |es| :: es[i].name
  }

  /** The category of the first entity of `es` that carries `name`. */
  function FirstCategory(es: seq<ExtractedEntity>, name: string): string
    requires name in NameSet(es)
  {
    if es[0].name == name then es[0].category
    else
      assert name in NameSet(es[1..]) by {
        var i :| 0 <= i < |es| && es[i].name == name;
        assert es[1..][i - 1] == es[i];
      }
      FirstCategory(es[1..], name)
  }

  /** `MERGE (e:Entity {name}) ON CREATE SET e.category = $category`. */
  function MergeEntity(ents: map<string, string>, e: ExtractedEntity): map<string, string> {
    if e.name in ents then ents else ents[e.name := e.category]
  }

  function MergeEntities(ents: map<string, string>, es: seq<ExtractedEntity>): map<string, string>
    decreases |es|
  {
    if es == [] then ents else MergeEntities(MergeEntity(ents, es[0]), es[1..])
  }

  /** Entity merge: one node per name; a node that existed keeps its
      category, and a new node gets the category of the first entity that
      named it. */
  lemma {:induction false} MergeEntitiesSpec(ents: map<string, string>, es: seq<ExtractedEntity>)
    ensures MergeEntities(ents, es).Keys == ents.Keys + NameSet(es)
    ensures forall n :: n in ents ==> MergeEntities(ents, es)[n] == ents[n]
    ensures forall n :: n in NameSet(es) && n !in ents ==> MergeEntities(ents, es)[n] == FirstCategory(es, n)
    decreases |es|
  {
    if es != [] {
      var m := MergeEntity(ents, es[0]);
      MergeEntitiesSpec(m, es[1..]);
      assert NameSet(es) == {es[0].name} + NameSet(es[1..]) by {
        forall n | n in NameSet(es) ensures n in {es[0].name} + NameSet(es[1..]) {
          var i :| 0 <= i < |es| && es[i].name == n;
          if i > 0 { assert es[1..][i - 1] == es[i]; }
        }
        forall n | n in NameSet(es[1..]) ensures n in NameSet(es) {
          var i :| 0 <= i < |es[1..]| && es[1..][i].name == n;
          assert es[i + 1] == es[1..][i];
        }
      }
    } else {
      assert NameSet(es) == {};
    }
  }

  /** The MERGE key of a relation: its two entity names and its edge kind. */
  function RelationKey(r: ExtractedRelation): EdgeKey {
    EdgeKey(r.source, NormalizeRelationType(r.relationType), r.target)
  }

  /** `MATCH (a {name: source}), (b {name: target}) MERGE (a)-[:KIND]->(b)`:
      nothing happens unless both entities exist. */
  function MergeRelation(ents: map<string, string>, edges: map<EdgeKey, EdgeProps>, r: ExtractedRelation): map<EdgeKey, EdgeProps> {
    var k := RelationKey(r);
    if r.source in ents && r.target in ents && k !in edges then edges[k := EdgeProps(None, false)] else edges
  }

  function MergeRelations(ents: map<string, string>, edges: map<EdgeKey, EdgeProps>, rs: seq<ExtractedRelation>): map<EdgeKey, EdgeProps>
    decreases |rs|
  {
    if rs == [] then edges else MergeRelations(ents, MergeRelation(ents, edges, rs[0]), rs[1..])
  }

  /** The relations of `rs` whose two entities exist. */
  predicate Linkable(ents: map<string, string>, r: ExtractedRelation) {
    r.source in ents && r.target in ents
  }

  /** Relation merge: existing edges are kept as they were; an edge is added
      only for a relation whose two entities exist, and every such relation
      has its edge afterwards. */
  lemma {:induction false} MergeRelationsSpec(ents: map<string, string>, edges: map<EdgeKey, EdgeProps>, rs: seq<ExtractedRelation>)
    ensures edges.Keys <= MergeRelations(ents, edges, rs).Keys
    ensures forall k :: k in edges ==> MergeRelations(ents, edges, rs)[k] == edges[k]
    ensures forall k :: k in MergeRelations(ents, edges, rs) && k !in edges ==>
              MergeRelations(ents, edges, rs)[k] == EdgeProps(None, false) &&
              exists j :: 0 <= j < |rs| && Linkable(ents, rs[j]) && RelationKey(rs[j]) == k
    ensures forall j :: 0 <= j < |rs| && Linkable(ents, rs[j]) ==> RelationKey(rs[j]) in MergeRelations(ents, edges, rs)
    decreases |rs|
  {
    if rs != [] {
      var e1 := MergeRelation(ents, edges, rs[0]);
      MergeRelationsSpec(ents, e1, rs[1..]);
      var out := MergeRelations(ents, edges, rs);
      forall k | k in out && k !in edges
        ensures exists j :: 0 <= j < |rs| && Linkable(ents, rs[j]) && RelationKey(rs[j]) == k
      {
        if k in e1 {
          assert RelationKey(rs[0]) == k && Linkable(ents, rs[0]);
        } else {
          var j :| 0 <= j < |rs[1..]| && Linkable(ents, rs[1..][j]) && RelationKey(rs[1..][j]) == k;
          assert rs[j + 1] == rs[1..][j];
        }
      }
      forall j | 0 <= j < |rs| && Linkable(ents, rs[j])
        ensures RelationKey(rs[j]) in out
      {
        if j > 0 { assert rs[j] == rs[1..][j - 1]; }
      }
    }
  }

  /** Merging relations whose edges are all present already changes nothing;
      in particular merging the same relations twice adds no duplicate. */
  lemma {:induction false} MergeRelationsPresent(ents: map<string, string>, edges: map<EdgeKey, EdgeProps>, rs: seq<ExtractedRelation>)
    requires forall j :: 0 <= j < |rs| && Linkable(ents, rs[j]) ==> RelationKey(rs[j]) in edges
    ensures MergeRelations(ents, edges, rs) == edges
    decreases |rs|
  {
    if rs != [] {
      assert MergeRelation(ents, edges, rs[0]) == edges;
      forall j | 0 <= j < |rs[1..]| && Linkable(ents, rs[1..][j])
        ensures RelationKey(rs[1..][j]) in edges
      {
        assert rs[1..][j] == rs[j + 1];
      }
      MergeRelationsPresent(ents, edges, rs[1..]);
    }
  }

  lemma MergeRelationsIdempotent(ents: map<string, string>, edges: map<EdgeKey, EdgeProps>, rs: seq<ExtractedRelation>)
    ensures MergeRelations(ents, MergeRelations(ents, edges, rs), rs) == MergeRelations(ents, edges, rs)
  {
    MergeRelationsSpec(ents, edges, rs);
    MergeRelationsPresent(ents, MergeRelations(ents, edges, rs), rs);
  }

  function EntityNames(es: seq<ExtractedEntity>): (names: seq<string>)
    ensures |names| == |es| && forall i :: 0 <= i < |es| ==> names[i] == es[i].name
  {
    seq(|es|, i requires 0 <= i < |es| => es[i].name)
  }

  predicate HasChunk(chunks: seq<StoredChunk>, id: string) {
    exists i :: 0 <= i < |chunks| && chunks[i].id == id
  }

  /** `MATCH (c:DocumentChunk {id}), (e:Entity) WHERE e.name IN $names MERGE (c)-[:MENTIONS]->(e)`. */
  function LinkMentions(chunks: seq<StoredChunk>, ents: map<string, string>, mentions: set<Mention>,
                        chunkId: string, names: seq<string>): set<Mention>
  {
    if HasChunk(chunks, chunkId) then
      mentions + set i | 0 <= i < |names| && names[i] in ents :: Mention(chunkId, names[i])
    else mentions
  }

  /** The content of the store after a committed save_graph. */
  function SaveGraphEffect(s: StoreState, chunkId: string, data: KnowledgeExtraction): StoreState {
    var ents := MergeEntities(s.entities, data.entities);
    var edges := MergeRelations(ents, s.edges, data.relations);
    var mentions := LinkMentions(s.chunks, ents, s.mentions, chunkId, EntityNames(data.entities));
    StoreState(s.chunks, ents, edges, mentions)
  }

  /** The index of the commit, the last statement of the save_graph transaction. */
  function SaveGraphLastStep(data: KnowledgeExtraction): nat {
    |data.entities| + |data.relations| + 2
  }

  /** Mentions: after save_graph the chunk mentions every entity named in the
      extraction and no other; the links of other chunks are untouched. */
  lemma SaveGraphMentions(s: StoreState, chunkId: string, data: KnowledgeExtraction)
    requires HasChunk(s.chunks, chunkId)
    ensures SaveGraphEffect(s, chunkId, data).mentions
            == s.mentions + set n | n in NameSet(data.entities) :: Mention(chunkId, n)
  {
    var ents := MergeEntities(s.entities, data.entities);
    MergeEntitiesSpec(s.entities, data.entities);
    var names := EntityNames(data.entities);
    var linked := set i | 0 <= i < |names| && names[i] in ents :: Mention(chunkId, names[i]);
    var wanted := set n | n in NameSet(data.entities) :: Mention(chunkId, n);
    forall m | m in wanted ensures m in linked {
      var i :| 0 <= i < |data.entities| && data.entities[i].name == m.entity;
      assert names[i] == m.entity;
    }
  }

  /** Category invariant: two extractions naming "Paris" with different
      categories leave one Paris node carrying the first category. */
  lemma FirstCategoryWins(s: StoreState, c1: string, c2: string, d1: KnowledgeExtraction, d2: KnowledgeExtraction,
                          city: string, first: string, second: string)
    requires city !in s.entities
    requires d1.entities == [ExtractedEntity(city, first)] && d2.entities == [ExtractedEntity(city, second)]
    ensures city in SaveGraphEffect(SaveGraphEffect(s, c1, d1), c2, d2).entities
    ensures SaveGraphEffect(SaveGraphEffect(s, c1, d1), c2, d2).entities[city] == first
    ensures SaveGraphEffect(SaveGraphEffect(s, c1, d1), c2, d2).entities.Keys == s.entities.Keys + {city}
  {
    var s1 := SaveGraphEffect(s, c1, d1);
    MergeEntitiesSpec(s.entities, d1.entities);
    MergeEntitiesSpec(s1.entities, d2.entities);
    assert NameSet(d1.entities) == {city} by { assert d1.entities[0].name == city; }
    assert NameSet(d2.entities) == {city} by { assert d2.entities[0].name == city; }
  }

  // ---------------------------------------------------------------------
  // save_inferred_relations
  // ---------------------------------------------------------------------

  const InferredPrefix: string := "INFERRED_"

  function InferredKey(r: InferredRelation): EdgeKey {
    EdgeKey(r.source, InferredPrefix + NormalizeRelationType(r.relation), r.target)
  }

  /** `MERGE (a)-[r:INFERRED_KIND]->(b) ON CREATE SET r.reasoning, r.is_ai_generated = true`. */
  function MergeInferred(ents: map<string, string>, edges: map<EdgeKey, EdgeProps>, r: InferredRelation): map<EdgeKey, EdgeProps> {
    var k := InferredKey(r);
    if r.source in ents && r.target in ents && k !in edges then edges[k := EdgeProps(Some(r.reasoning), true)] else edges
  }

  function MergeInferredAll(ents: map<string, string>, edges: map<EdgeKey, EdgeProps>, rs: seq<InferredRelation>): map<EdgeKey, EdgeProps>
    decreases |rs|
  {
    if rs == [] then edges else MergeInferredAll(ents, MergeInferred(ents, edges, rs[0]), rs[1..])
  }

  function SaveInferredEffect(s: StoreState, rs: seq<InferredRelation>): StoreState {
    s.(edges := MergeInferredAll(s.entities, s.edges, rs))
  }

  /** The index of the commit of the save_inferred_relations transaction. */
  function SaveInferredLastStep(rs: seq<InferredRelation>): nat {
    |rs| + 1
  }

  /** Whether the save_inferred_relations transaction for `rs` fails under `fault`. */
  predicate SaveInferredFails(rs: seq<InferredRelation>, fault: Option<DbFault>) {
    fault.Some? && fault.value.step <= SaveInferredLastStep(rs)
  }

  /** A new inferred edge carries the reasoning of the first relation of the
      batch that creates it: MERGE sets the reasoning only ON CREATE, so later
      duplicates of the same edge leave it as it is. */
  lemma {:induction false} MergeInferredAllOrigin(ents: map<string, string>, edges: map<EdgeKey, EdgeProps>, rs: seq<InferredRelation>)
    ensures forall k :: k in MergeInferredAll(ents, edges, rs) && k !in edges ==>
              exists j :: 0 <= j < |rs| && InferredKey(rs[j]) == k &&
                MergeInferredAll(ents, edges, rs)[k].reasoning == Some(rs[j].reasoning) &&
                forall i :: 0 <= i < j && rs[i].source in ents && rs[i].target in ents ==> InferredKey(rs[i]) != k
    decreases |rs|
  {
    if rs != [] {
      var e1 := MergeInferred(ents, edges, rs[0]);
      MergeInferredAllKeeps(ents, e1, rs[1..]);
      MergeInferredAllOrigin(ents, e1, rs[1..]);
      var out := MergeInferredAll(ents, edges, rs);
      forall k | k in out && k !in edges
        ensures exists j :: 0 <= j < |rs| && InferredKey(rs[j]) == k && out[k].reasoning == Some(rs[j].reasoning) &&
                  forall i :: 0 <= i < j && rs[i].source in ents && rs[i].target in ents ==> InferredKey(rs[i]) != k
      {
        if k in e1 {
          assert InferredKey(rs[0]) == k && out[k] == e1[k];
        } else {
          var j :| 0 <= j < |rs[1..]| && InferredKey(rs[1..][j]) == k && out[k].reasoning == Some(rs[1..][j].reasoning) &&
                   forall i :: 0 <= i < j && rs[1..][i].source in ents && rs[1..][i].target in ents ==> InferredKey(rs[1..][i]) != k;
          assert rs[j + 1] == rs[1..][j];
          forall i | 0 <= i < j + 1 && rs[i].source in ents && rs[i].target in ents
            ensures InferredKey(rs[i]) != k
          {
            if i > 0 { assert rs[i] == rs[1..][i - 1]; }
          }
        }
      }
    }
  }

  /** Merging inferred edges keeps every existing edge and its properties. */
  lemma {:induction false} MergeInferredAllKeeps(ents: map<string, string>, edges: map<EdgeKey, EdgeProps>, rs: seq<InferredRelation>)
    ensures edges.Keys <= MergeInferredAll(ents, edges, rs).Keys
    ensures forall k :: k in edges ==> MergeInferredAll(ents, edges, rs)[k] == edges[k]
    decreases |rs|
  {
    if rs != [] {
      MergeInferredAllKeeps(ents, MergeInferred(ents, edges, rs[0]), rs[1..]);
    }
  }

  /** Inferred edges are additive: every existing edge keeps its properties,
      and each new edge is an INFERRED_ edge between existing entities,
      marked AI-generated, carrying the reasoning of the first relation of
      the batch that creates it (later duplicates leave it as it is). */
  lemma {:induction false} MergeInferredAllSpec(ents: map<string, string>, edges: map<EdgeKey, EdgeProps>, rs: seq<InferredRelation>)
    ensures edges.Keys <= MergeInferredAll(ents, edges, rs).Keys
    ensures forall k :: k in edges ==> MergeInferredAll(ents, edges, rs)[k] == edges[k]
    ensures forall k :: k in MergeInferredAll(ents, edges, rs) && k !in edges ==>
              StartsWith(k.kind, InferredPrefix) && k.source in ents && k.target in ents &&
              MergeInferredAll(ents, edges, rs)[k].aiGenerated
    ensures forall k :: k in MergeInferredAll(ents, edges, rs) && k !in edges ==>
              exists j :: 0 <= j < |rs| && InferredKey(rs[j]) == k &&
                MergeInferredAll(ents, edges, rs)[k].reasoning == Some(rs[j].reasoning) &&
                forall i :: 0 <= i < j && rs[i].source in ents && rs[i].target in ents ==> InferredKey(rs[i]) != k
    ensures forall j :: 0 <= j < |rs| && rs[j].source in ents && rs[j].target in ents ==>
              InferredKey(rs[j]) in MergeInferredAll(ents, edges, rs)
    decreases |rs|
  {
    MergeInferredAllKeeps(ents, edges, rs);
    MergeInferredAllOrigin(ents, edges, rs);
    if rs != [] {
      var e1 := MergeInferred(ents, edges, rs[0]);
      MergeInferredAllSpec(ents, e1, rs[1..]);
      var out := MergeInferredAll(ents, edges, rs);
      forall k | k in out && k !in edges
        ensures StartsWith(k.kind, InferredPrefix) && k.source in ents && k.target in ents && out[k].aiGenerated
      {
        if k in e1 {
          assert InferredKey(rs[0]) == k;
          assert (InferredPrefix + NormalizeRelationType(rs[0].relation))[..|InferredPrefix|] == InferredPrefix;
        }
      }
      forall j | 0 <= j < |rs| && rs[j].source in ents && rs[j].target in ents
        ensures InferredKey(rs[j]) in out
      {
        if j > 0 { assert rs[j] == rs[1..][j - 1]; }
      }
    }
  }

  /** save_inferred_relations touches only the edges, and only additively. */
  lemma SaveInferredAdditive(s: StoreState, rs: seq<InferredRelation>)
    ensures SaveInferredEffect(s, rs).chunks == s.chunks
    ensures SaveInferredEffect(s, rs).entities == s.entities
    ensures SaveInferredEffect(s, rs).mentions == s.mentions
    ensures forall k :: k in s.edges ==> k in SaveInferredEffect(s, rs).edges && SaveInferredEffect(s, rs).edges[k] == s.edges[k]
    ensures forall k :: k in SaveInferredEffect(s, rs).edges && k !in s.edges ==>
              StartsWith(k.kind, InferredPrefix) && SaveInferredEffect(s, rs).edges[k].aiGenerated
  {
    MergeInferredAllSpec(s.entities, s.edges, rs);
  }

  /** A graph A -CAUSES-> B -IMPLIES-> C and an inferred A LLEVA_A C gains
      exactly one edge, INFERRED_LLEVA_A, marked AI-generated; the two
      original edges are untouched. */
  lemma InferTransitiveExample(s: StoreState, why: string)
    requires s.entities.Keys == {"A", "B", "C"}
    requires s.edges == map[EdgeKey("A", "CAUSES", "B") := EdgeProps(None, false),
                            EdgeKey("B", "IMPLIES", "C") := EdgeProps(None, false)]
    ensures SaveInferredEffect(s, [InferredRelation("A", "C", "LLEVA_A", why)]).edges
            == s.edges[EdgeKey("A", "INFERRED_LLEVA_A", "C") := EdgeProps(Some(why), true)]
  {
    var r := InferredRelation("A", "C", "LLEVA_A", why);
    var k := EdgeKey("A", "INFERRED_LLEVA_A", "C");
    InferredKeyLlevaA(r);
    assert k != EdgeKey("A", "CAUSES", "B") && k != EdgeKey("B", "IMPLIES", "C");
    assert "A" in s.entities && "C" in s.entities;
    var e1 := MergeInferred(s.entities, s.edges, r);
    assert e1 == s.edges[k := EdgeProps(Some(why), true)];
    assert [r][1..] == [];
    assert MergeInferredAll(s.entities, s.edges, [r]) == MergeInferredAll(s.entities, e1, []);
  }

  lemma InferredKeyLlevaA(r: InferredRelation)
    requires r.source == "A" && r.target == "C" && r.relation == "LLEVA_A"
    ensures InferredKey(r) == EdgeKey("A", "INFERRED_LLEVA_A", "C")
  {
    NormalizeLlevaA();
    InferredLlevaAText();
  }

  lemma InferredLlevaAText()
    ensures InferredPrefix + "LLEVA_A" == "INFERRED_LLEVA_A"
  {
  }

  lemma NormalizeLlevaA()
    ensures NormalizeRelationType("LLEVA_A") == "LLEVA_A"
  {
    assert ReplaceSpaces("LLEVA_A") == "LLEVA_A";
    ToUpperFixed("LLEVA_A");
  }

  // ---------------------------------------------------------------------
  // The repository
  // ---------------------------------------------------------------------

  /** Neo4jRepo: the write operations, each one run against the database. */
  class Neo4jRepo {
    var chunks: seq<StoredChunk>
    var entities: map<string, string>
    var edges: map<EdgeKey, EdgeProps>
    var mentions: set<Mention>

    function State(): StoreState
      reads this
    {
      StoreState(chunks, entities, edges, mentions)
    }

    constructor (initial: StoreState)
      ensures State() == initial
    {
      chunks := initial.chunks;
      entities := initial.entities;
      edges := initial.edges;
      mentions := initial.mentions;
    }

    /** `save_chunk`: one CREATE statement; a database error is reported as
        DatabaseError and nothing is stored. */
    method SaveChunk(id: string, content: string, embedding: Embedding, fault: Option<string>) returns (r: Outcome<AppError>)
      modifies this
      ensures fault.Some? ==> r == Fail(DatabaseError(fault.value)) && State() == old(State())
      ensures fault.None? ==> r == Pass
      ensures fault.None? ==> State() == SaveChunkEffect(old(State()), id, content, embedding)
    {
      if fault.Some? {
        return Fail(DatabaseError(fault.value));
      }
      chunks := chunks + [StoredChunk(id, content, embedding)];
      r := Pass;
    }

    /** `save_graph`: entity merges, then relation merges, then the MENTIONS
        link, then commit, in one transaction. A failing statement returns
        DatabaseError before the commit, and the store is left as it was. */
    method SaveGraph(chunkId: string, data: KnowledgeExtraction, fault: Option<DbFault>) returns (r: Outcome<AppError>)
      modifies this
      ensures r.Fail? <==> SaveGraphFails(data, fault)
      ensures r.Fail? ==> r.error == DatabaseError(fault.value.message) && State() == old(State())
      ensures r.Pass? ==> State() == SaveGraphEffect(old(State()), chunkId, data)
    {
      if FailsAt(fault, 0) {
        return Fail(DatabaseError(fault.value.message));
      }
      // the transaction's view of the graph, written back by the commit
      var ents := entities;
      for i := 0 to |data.entities|
        invariant MergeEntities(ents, data.entities[i..]) == MergeEntities(entities, data.entities)
        invariant fault.Some? ==> fault.value.step > i
      {
        if FailsAt(fault, 1 + i) {
          return Fail(DatabaseError(fault.value.message));
        }
        assert data.entities[i..][0] == data.entities[i] && data.entities[i..][1..] == data.entities[i + 1..];
        ents := MergeEntity(ents, data.entities[i]);
      }
      var es := edges;
      var base := 1 + |data.entities|;
      for i := 0 to |data.relations|
        invariant MergeRelations(ents, es, data.relations[i..]) == MergeRelations(ents, edges, data.relations)
        invariant fault.Some? ==> fault.value.step >= base + i
      {
        if FailsAt(fault, base + i) {
          return Fail(DatabaseError(fault.value.message));
        }
        assert data.relations[i..][0] == data.relations[i] && data.relations[i..][1..] == data.relations[i + 1..];
        es := MergeRelation(ents, es, data.relations[i]);
      }
      if FailsAt(fault, base + |data.relations|) {
        return Fail(DatabaseError(fault.value.message));
      }
      var ms := LinkMentions(chunks, ents, mentions, chunkId, EntityNames(data.entities));
      if FailsAt(fault, base + |data.relations| + 1) {
        return Fail(DatabaseError(fault.value.message));
      }
      entities, edges, mentions := ents, es, ms;
      r := Pass;
    }

    /** `save_inferred_relations`: one MERGE per relation, then commit, in one
        transaction; all-or-nothing like save_graph. */
    method SaveInferredRelations(rs: seq<InferredRelation>, fault: Option<DbFault>) returns (r: Outcome<AppError>)
      modifies this
      ensures r.Fail? <==> SaveInferredFails(rs, fault)
      ensures r.Fail? ==> r.error == DatabaseError(fault.value.message) && State() == old(State())
      ensures r.Pass? ==> State() == SaveInferredEffect(old(State()), rs)
    {
      if FailsAt(fault, 0) {
        return Fail(DatabaseError(fault.value.message));
      }
      var es := edges;
      for i := 0 to |rs|
        invariant MergeInferredAll(entities, es, rs[i..]) == MergeInferredAll(entities, edges, rs)
        invariant fault.Some? ==> fault.value.step > i
      {
        if FailsAt(fault, 1 + i) {
          return Fail(DatabaseError(fault.value.message));
        }
        assert rs[i..][0] == rs[i] && rs[i..][1..] == rs[i + 1..];
        es := MergeInferred(entities, es, rs[i]);
      }
      if FailsAt(fault, 1 + |rs|) {
        return Fail(DatabaseError(fault.value.message));
      }
      edges := es;
      r := Pass;
    }
  }
}
