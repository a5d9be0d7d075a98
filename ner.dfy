/** The entity and relation stage (extract_entities_relations): for each chunk
    whose `traite_ner` flag is false, the extracted entities and relations go
    to the relational tables and are committed; then every relational row of
    that chunk is mirrored into the vector store; then the flag is set and
    committed. */
module Ner {
  import opened Common

  /** What the linguistic extractor finds in a text: (text, category) pairs for
      the named entities, and (subject text, verb lemma, object text) triples. */
  datatype Extraction = Extraction(entities: seq<(string, string)>, triplets: seq<(string, string, string)>)

  /** A row of the chunks table as this stage sees it; `traite_ner` is nullable. */
  datatype NerChunk = NerChunk(id: nat, text: string, traiteNer: Option<bool>)

  /** A row of the entities table. */
  datatype EntityRow = EntityRow(id: nat, text: string, category: string, chunkId: nat)

  /** A row of the relations table. */
  datatype RelationRow = RelationRow(id: nat, subject: string, verb: string, obj: string, chunkId: nat)

  /** An object of the vector store: its uuid, its properties, and the beacon
      that points at its chunk. */
  datatype Mirror =
    | EntityMirror(uuid: string, text: string, category: string, beacon: string)
    | RelationMirror(uuid: string, subject: string, verb: string, obj: string, beacon: string)

  /** The committed contents of the three relational tables. */
  datatype Tables = Tables(chunks: seq<NerChunk>, entities: seq<EntityRow>, relations: seq<RelationRow>)

  /** Everything the stage reads and writes: the relational tables, the two
      id sequences, and the vector store's objects in creation order. */
  datatype World = World(
    chunks: seq<NerChunk>,
    entities: seq<EntityRow>,
    relations: seq<RelationRow>,
    nextEntityId: nat,
    nextRelationId: nat,
    mirrors: seq<Mirror>)

  // ---------------------------------------------------------------------------
  // The objects written to the vector store
  // ---------------------------------------------------------------------------

  const BeaconPrefix := "weaviate://localhost/Chunk/"

  /** The reference from a mirror to the chunk with id chunkId. */
  function Beacon(chunkId: nat): (b: string)
    ensures |b| > |BeaconPrefix| && b[..|BeaconPrefix|] == BeaconPrefix
  {
    BeaconPrefix + NatToString(chunkId)
  }

  /** insert_entity_wv: the object for an entity row, with uuid str(id). */
  function EntityObject(e: EntityRow, chunkId: nat): Mirror
  {
    EntityMirror(NatToString(e.id), e.text, e.category, Beacon(chunkId))
  }

  /** insert_relation_wv: the object for a relation row, with uuid str(id). */
  function RelationObject(r: RelationRow, chunkId: nat): Mirror
  {
    RelationMirror(NatToString(r.id), r.subject, r.verb, r.obj, Beacon(chunkId))
  }

  function EntityObjects(rows: seq<EntityRow>, chunkId: nat): (r: seq<Mirror>)
    ensures |r| == |rows|
    ensures forall k :: 0 <= k < |rows| ==> r[k] == EntityObject(rows[k], chunkId)
  {
    seq(|rows|, k requires 0 <= k < |rows| => EntityObject(rows[k], chunkId))
  }

  function RelationObjects(rows: seq<RelationRow>, chunkId: nat): (r: seq<Mirror>)
    ensures |r| == |rows|
    ensures forall k :: 0 <= k < |rows| ==> r[k] == RelationObject(rows[k], chunkId)
  {
    seq(|rows|, k requires 0 <= k < |rows| => RelationObject(rows[k], chunkId))
  }

  // ---------------------------------------------------------------------------
  // Queries and updates
  // ---------------------------------------------------------------------------

  /** query(ChunkPG).filter(traite_ner == False): in SQL a NULL flag does not
      compare equal to false, so only chunks whose flag is false are selected. */
  function Selected(cs: seq<NerChunk>): (r: seq<NerChunk>)
    ensures |r| <= |cs|
    ensures forall c :: c in r ==> c in cs && c.traiteNer == Some(false)
  {
    if cs == [] then []
    else if cs[0].traiteNer == Some(false) then [cs[0]] + Selected(cs[1..])
    else Selected(cs[1..])
  }

  /** query(EntityPG).filter(chunk_id == chunkId), in table order. */
  function EntitiesOf(rows: seq<EntityRow>, chunkId: nat): (r: seq<EntityRow>)
    ensures |r| <= |rows|
    ensures forall e :: e in r <==> e in rows && e.chunkId == chunkId
  {
    if rows == [] then []
    else if rows[0].chunkId == chunkId then [rows[0]] + EntitiesOf(rows[1..], chunkId)
    else EntitiesOf(rows[1..], chunkId)
  }

  /** query(RelationPG).filter(chunk_id == chunkId), in table order. */
  function RelationsOf(rows: seq<RelationRow>, chunkId: nat): (r: seq<RelationRow>)
    ensures |r| <= |rows|
    ensures forall x :: x in r <==> x in rows && x.chunkId == chunkId
  {
    if rows == [] then []
    else if rows[0].chunkId == chunkId then [rows[0]] + RelationsOf(rows[1..], chunkId)
    else RelationsOf(rows[1..], chunkId)
  }

  /** The entity rows added for the pairs, with ids taken from the sequence
      starting at next. */
  function NewEntities(pairs: seq<(string, string)>, chunkId: nat, next: nat): (r: seq<EntityRow>)
    ensures |r| == |pairs|
    ensures forall k :: 0 <= k < |pairs| ==> r[k] == EntityRow(next + k, pairs[k].0, pairs[k].1, chunkId)
  {
    seq(|pairs|, k requires 0 <= k < |pairs| => EntityRow(next + k, pairs[k].0, pairs[k].1, chunkId))
  }

  /** The relation rows added for the triples, with ids starting at next. */
  function NewRelations(ts: seq<(string, string, string)>, chunkId: nat, next: nat): (r: seq<RelationRow>)
    ensures |r| == |ts|
    ensures forall k :: 0 <= k < |ts| ==> r[k] == RelationRow(next + k, ts[k].0, ts[k].1, ts[k].2, chunkId)
  {
    seq(|ts|, k requires 0 <= k < |ts| => RelationRow(next + k, ts[k].0, ts[k].1, ts[k].2, chunkId))
  }

  /** UPDATE chunks SET traite_ner = true WHERE id = chunkId. */
  function MarkNer(cs: seq<NerChunk>, chunkId: nat): (r: seq<NerChunk>)
    ensures |r| == |cs|
  {
    seq(|cs|, k requires 0 <= k < |cs| => if cs[k].id == chunkId then cs[k].(traiteNer := Some(true)) else cs[k])
  }

  // ---------------------------------------------------------------------------
  // The phases of one chunk, and a whole run
  // ---------------------------------------------------------------------------

  /** The chunk's rows are added and committed (scripts/traite_ner.py:57-63). */
  function WithRows(w: World, c: NerChunk, x: Extraction): World
  {
    w.(entities := w.entities + NewEntities(x.entities, c.id, w.nextEntityId),
       nextEntityId := w.nextEntityId + |x.entities|,
       relations := w.relations + NewRelations(x.triplets, c.id, w.nextRelationId),
       nextRelationId := w.nextRelationId + |x.triplets|)
  }

  /** The objects scripts/traite_ner.py:66-70 creates for a chunk: one per entity row of the
      chunk, then one per relation row, in table order. */
  function ChunkObjects(entities: seq<EntityRow>, relations: seq<RelationRow>, chunkId: nat): seq<Mirror>
  {
    EntityObjects(EntitiesOf(entities, chunkId), chunkId)
    + RelationObjects(RelationsOf(relations, chunkId), chunkId)
  }

  /** Every entity row, then every relation row, of the chunk is mirrored
      (scripts/traite_ner.py:66-70). */
  function WithMirrors(w: World, chunkId: nat): World
  {
    w.(mirrors := w.mirrors + ChunkObjects(w.entities, w.relations, chunkId))
  }

  /** The flag is set and committed (scripts/traite_ner.py:73-74). */
  function WithFlag(w: World, chunkId: nat): World
  {
    w.(chunks := MarkNer(w.chunks, chunkId))
  }

  /** One turn of the loop over the selected chunks. */
  function AfterChunk(w: World, c: NerChunk, extract: string -> Extraction): World
  {
    WithFlag(WithMirrors(WithRows(w, c, extract(c.text)), c.id), c.id)
  }

  /** The whole loop over the selection sel. */
  function AfterRun(w: World, sel: seq<NerChunk>, extract: string -> Extraction): World
    decreases |sel|
  {
    if sel == [] then w else AfterRun(AfterChunk(w, sel[0], extract), sel[1..], extract)
  }

  // ---------------------------------------------------------------------------
  // The stage as it runs against a session and a vector-store client
  // ---------------------------------------------------------------------------

  /** The session's view of the relational tables, what has been committed,
      the id sequences, and the vector store. */
  class NerStores {
    var chunks: seq<NerChunk>
    var entities: seq<EntityRow>
    var relations: seq<RelationRow>
    var nextEntityId: nat
    var nextRelationId: nat
    var committed: Tables
    var mirrors: seq<Mirror>

    function State(): World
      reads this
    {
      World(chunks, entities, relations, nextEntityId, nextRelationId, mirrors)
    }

    /** Nothing is pending in the session. */
    predicate Clean()
      reads this
    {
      committed == Tables(chunks, entities, relations)
    }

    constructor(w: World)
      ensures State() == w && Clean()
    {
      chunks := w.chunks;
      entities := w.entities;
      relations := w.relations;
      nextEntityId := w.nextEntityId;
      nextRelationId := w.nextRelationId;
      mirrors := w.mirrors;
      committed := Tables(w.chunks, w.entities, w.relations);
    }

    /** insert_entity_pg: add the row to the session; the flush gives it the
        next id of the sequence. */
    method InsertEntityPg(text: string, category: string, chunkId: nat) returns (ent: EntityRow)
      modifies this`entities, this`nextEntityId
      ensures ent == EntityRow(old(nextEntityId), text, category, chunkId)
      ensures entities == old(entities) + [ent] && nextEntityId == old(nextEntityId) + 1
    {
      ent := EntityRow(nextEntityId, text, category, chunkId);
      entities := entities + [ent];
      nextEntityId := nextEntityId + 1;
    }

    /** insert_relation_pg: add the row to the session with the next id. */
    method InsertRelationPg(subject: string, verb: string, obj: string, chunkId: nat) returns (rel: RelationRow)
      modifies this`relations, this`nextRelationId
      ensures rel == RelationRow(old(nextRelationId), subject, verb, obj, chunkId)
      ensures relations == old(relations) + [rel] && nextRelationId == old(nextRelationId) + 1
    {
      rel := RelationRow(nextRelationId, subject, verb, obj, chunkId);
      relations := relations + [rel];
      nextRelationId := nextRelationId + 1;
    }

    /** session.commit(). */
    method Commit()
      modifies this`committed
      ensures Clean()
    {
      committed := Tables(chunks, entities, relations);
    }

    /** insert_entity_wv. Only a committed row may be mirrored: the vector
        store must never hold an object the relational store could lose. */
    method InsertEntityWv(e: EntityRow, chunkId: nat)
      requires e in committed.entities
      modifies this`mirrors
      ensures mirrors == old(mirrors) + [EntityObject(e, chunkId)]
    {
      mirrors := mirrors + [EntityObject(e, chunkId)];
    }

    /** insert_relation_wv. Only a committed row may be mirrored. */
    method InsertRelationWv(r: RelationRow, chunkId: nat)
      requires r in committed.relations
      modifies this`mirrors
      ensures mirrors == old(mirrors) + [RelationObject(r, chunkId)]
    {
      mirrors := mirrors + [RelationObject(r, chunkId)];
    }

    /** The flag update of scripts/traite_ner.py:73. It may only happen once every entity and
        relation row of the chunk has its mirror. */
    method SetNerFlag(chunkId: nat)
      requires ChunkMirrored(State(), chunkId)
      modifies this`chunks
      ensures chunks == MarkNer(old(chunks), chunkId)
    {
      chunks := MarkNer(chunks, chunkId);
    }

    /** scripts/traite_ner.py:57-61: one entity row per extracted pair, then one relation row
        per triple, all for chunk c, in extraction order. */
    method AddRows(c: NerChunk, x: Extraction)
      modifies this`entities, this`nextEntityId, this`relations, this`nextRelationId
      ensures entities == old(entities) + NewEntities(x.entities, c.id, old(nextEntityId))
      ensures nextEntityId == old(nextEntityId) + |x.entities|
      ensures relations == old(relations) + NewRelations(x.triplets, c.id, old(nextRelationId))
      ensures nextRelationId == old(nextRelationId) + |x.triplets|
    {
      var i := 0;
      while i < |x.entities|
        invariant 0 <= i <= |x.entities|
        invariant entities == old(entities) + NewEntities(x.entities[..i], c.id, old(nextEntityId))
        invariant nextEntityId == old(nextEntityId) + i
        invariant relations == old(relations) && nextRelationId == old(nextRelationId)
      {
        var (text, category) := x.entities[i];
        var _ := InsertEntityPg(text, category, c.id);
        assert NewEntities(x.entities[..i + 1], c.id, old(nextEntityId))
            == NewEntities(x.entities[..i], c.id, old(nextEntityId)) + [EntityRow(old(nextEntityId) + i, text, category, c.id)];
        i := i + 1;
      }
      assert x.entities[..i] == x.entities;
      i := 0;
      while i < |x.triplets|
        invariant 0 <= i <= |x.triplets|
        invariant relations == old(relations) + NewRelations(x.triplets[..i], c.id, old(nextRelationId))
        invariant nextRelationId == old(nextRelationId) + i
        invariant entities == old(entities) + NewEntities(x.entities, c.id, old(nextEntityId))
        invariant nextEntityId == old(nextEntityId) + |x.entities|
      {
        var (subj, verb, obj) := x.triplets[i];
        var _ := InsertRelationPg(subj, verb, obj, c.id);
        assert NewRelations(x.triplets[..i + 1], c.id, old(nextRelationId))
            == NewRelations(x.triplets[..i], c.id, old(nextRelationId)) + [RelationRow(old(nextRelationId) + i, subj, verb, obj, c.id)];
        i := i + 1;
      }
      assert x.triplets[..i] == x.triplets;
    }

    /** scripts/traite_ner.py:66-67: every committed entity row of the chunk is mirrored, in table order. */
    method MirrorEntities(chunkId: nat)
      requires Clean()
      modifies this`mirrors
      ensures mirrors == old(mirrors) + EntityObjects(EntitiesOf(entities, chunkId), chunkId)
    {
      var ents := EntitiesOf(entities, chunkId);
      var i := 0;
      while i < |ents|
        invariant 0 <= i <= |ents|
        invariant mirrors == old(mirrors) + EntityObjects(ents[..i], chunkId)
      {
        InsertEntityWv(ents[i], chunkId);
        assert EntityObjects(ents[..i + 1], chunkId) == EntityObjects(ents[..i], chunkId) + [EntityObject(ents[i], chunkId)];
        i := i + 1;
      }
      assert ents[..i] == ents;
    }

    /** scripts/traite_ner.py:69-70: every committed relation row of the chunk is mirrored, in table order. */
    method MirrorRelations(chunkId: nat)
      requires Clean()
      modifies this`mirrors
      ensures mirrors == old(mirrors) + RelationObjects(RelationsOf(relations, chunkId), chunkId)
    {
      var rels := RelationsOf(relations, chunkId);
      var i := 0;
      while i < |rels|
        invariant 0 <= i <= |rels|
        invariant mirrors == old(mirrors) + RelationObjects(rels[..i], chunkId)
      {
        InsertRelationWv(rels[i], chunkId);
        assert RelationObjects(rels[..i + 1], chunkId) == RelationObjects(rels[..i], chunkId) + [RelationObject(rels[i], chunkId)];
        i := i + 1;
      }
      assert rels[..i] == rels;
    }

    /** scripts/traite_ner.py:57-63: the chunk's rows are added, then committed. */
    method StoreRows(c: NerChunk, x: Extraction)
      modifies this`entities, this`nextEntityId, this`relations, this`nextRelationId, this`committed
      ensures Clean()
      ensures State() == WithRows(old(State()), c, x)
    {
      AddRows(c, x);
      Commit();
    }

    /** scripts/traite_ner.py:66-70: the chunk's committed rows are mirrored, entities first. */
    method MirrorChunk(chunkId: nat)
      requires Clean()
      modifies this`mirrors
      ensures Clean()
      ensures State() == WithMirrors(old(State()), chunkId)
    {
      ghost var m0 := mirrors;
      MirrorEntities(chunkId);
      MirrorRelations(chunkId);
      AppendAssociative(m0, EntityObjects(EntitiesOf(entities, chunkId), chunkId), RelationObjects(RelationsOf(relations, chunkId), chunkId));
    }

    /** scripts/traite_ner.py:73-74: the flag is set, then committed. */
    method FlagChunk(chunkId: nat)
      requires ChunkMirrored(State(), chunkId)
      modifies this`chunks, this`committed
      ensures Clean()
      ensures State() == WithFlag(old(State()), chunkId)
    {
      SetNerFlag(chunkId);
      Commit();
    }

    /** The body of the loop of extract_entities_relations for one chunk. */
    method ProcessChunk(c: NerChunk, extract: string -> Extraction)
      requires Clean()
      modifies this
      ensures Clean()
      ensures State() == AfterChunk(old(State()), c, extract)
    {
      var x := extract(c.text);
      StoreRows(c, x);
      ghost var w1 := State();
      MirrorChunk(c.id);
      MirroredAfterMirrors(w1, c.id);
      FlagChunk(c.id);
    }

    /** extract_entities_relations. */
    method ExtractEntitiesRelations(extract: string -> Extraction)
      requires Clean()
      modifies this
      ensures Clean()
      ensures State() == AfterRun(old(State()), Selected(old(chunks)), extract)
    {
      var sel := Selected(chunks);
      var i := 0;
      while i < |sel|
        invariant 0 <= i <= |sel|
        invariant Clean()
        invariant AfterRun(State(), sel[i..], extract) == AfterRun(old(State()), sel, extract)
      {
        assert sel[i..][1..] == sel[i + 1..];
        ProcessChunk(sel[i], extract);
        i := i + 1;
      }
    }
  }

  lemma AppendAssociative(a: seq<Mirror>, b: seq<Mirror>, c: seq<Mirror>)
    ensures a + b + c == a + (b + c)
  {
  }

  /** After the two mirror loops (scripts/traite_ner.py:66-70) the chunk is fully mirrored. */
  lemma MirroredAfterMirrors(w: World, chunkId: nat)
    ensures ChunkMirrored(WithMirrors(w, chunkId), chunkId)
  {
    ChunkObjectsCover(w.mirrors, w.entities, w.relations, chunkId);
  }

  /** Once a chunk's objects are written, every entity and relation row of
      the chunk has its object. */
  lemma ChunkObjectsCover(m0: seq<Mirror>, entities: seq<EntityRow>, relations: seq<RelationRow>, chunkId: nat)
    ensures var m := m0 + ChunkObjects(entities, relations, chunkId);
      && (forall e :: e in entities && e.chunkId == chunkId ==> EntityObject(e, chunkId) in m)
      && (forall r :: r in relations && r.chunkId == chunkId ==> RelationObject(r, chunkId) in m)
  {
    var ents := EntitiesOf(entities, chunkId);
    var rels := RelationsOf(relations, chunkId);
    var m := m0 + ChunkObjects(entities, relations, chunkId);
    forall e | e in entities && e.chunkId == chunkId
      ensures EntityObject(e, chunkId) in m
    {
      assert e in ents;
      var k :| 0 <= k < |ents| && ents[k] == e;
      assert m[|m0| + k] == EntityObject(e, chunkId);
    }
    forall r | r in relations && r.chunkId == chunkId
      ensures RelationObject(r, chunkId) in m
    {
      assert r in rels;
      var k :| 0 <= k < |rels| && rels[k] == r;
      assert m[|m0| + |ents| + k] == RelationObject(r, chunkId);
    }
  }

  // ---------------------------------------------------------------------------
  // Queries over appended rows
  // ---------------------------------------------------------------------------

  lemma {:induction false} EntitiesOfAppend(a: seq<EntityRow>, b: seq<EntityRow>, chunkId: nat)
    ensures EntitiesOf(a + b, chunkId) == EntitiesOf(a, chunkId) + EntitiesOf(b, chunkId)
  {
    if a == [] {
      assert a + b == b;
    } else {
      var t := a[1..];
      assert (a + b)[1..] == t + b;
      assert (a + b)[0] == a[0];
      EntitiesOfAppend(t, b, chunkId);
      if a[0].chunkId == chunkId {
        assert EntitiesOf(a + b, chunkId) == [a[0]] + EntitiesOf(t + b, chunkId);
      } else {
        assert EntitiesOf(a + b, chunkId) == EntitiesOf(t + b, chunkId);
      }
    }
  }


  lemma {:induction false} RelationsOfAppend(a: seq<RelationRow>, b: seq<RelationRow>, chunkId: nat)
    ensures RelationsOf(a + b, chunkId) == RelationsOf(a, chunkId) + RelationsOf(b, chunkId)
  {
    if a == [] {
      assert a + b == b;
    } else {
      var t := a[1..];
      assert (a + b)[1..] == t + b;
      assert (a + b)[0] == a[0];
      RelationsOfAppend(t, b, chunkId);
      if a[0].chunkId == chunkId {
        assert RelationsOf(a + b, chunkId) == [a[0]] + RelationsOf(t + b, chunkId);
      } else {
        assert RelationsOf(a + b, chunkId) == RelationsOf(t + b, chunkId);
      }
    }
  }


  /** A filter keeps everything when every row passes it, nothing when none does. */
  lemma {:induction false} EntitiesOfUniform(rows: seq<EntityRow>, chunkId: nat)
    requires forall k :: 0 <= k < |rows| ==> rows[k].chunkId == rows[0].chunkId
    ensures rows != [] && rows[0].chunkId == chunkId ==> EntitiesOf(rows, chunkId) == rows
    ensures rows != [] && rows[0].chunkId != chunkId ==> EntitiesOf(rows, chunkId) == []
  {
    if rows != [] {
      EntitiesOfUniform(rows[1..], chunkId);
      if |rows| > 1 {
        assert rows[1..][0] == rows[1];
      }
    }
  }

  lemma {:induction false} RelationsOfUniform(rows: seq<RelationRow>, chunkId: nat)
    requires forall k :: 0 <= k < |rows| ==> rows[k].chunkId == rows[0].chunkId
    ensures rows != [] && rows[0].chunkId == chunkId ==> RelationsOf(rows, chunkId) == rows
    ensures rows != [] && rows[0].chunkId != chunkId ==> RelationsOf(rows, chunkId) == []
  {
    if rows != [] {
      RelationsOfUniform(rows[1..], chunkId);
      if |rows| > 1 {
        assert rows[1..][0] == rows[1];
      }
    }
  }

  /** Processing chunk c adds, after the rows c already had, one entity row per
      extracted pair and one relation row per triple, carrying c's id, in
      extraction order and without deduplication; no other chunk gains a row. */
  lemma RowsOfChunk(w: World, c: NerChunk, extract: string -> Extraction, chunkId: nat)
    ensures var x := extract(c.text); var w' := AfterChunk(w, c, extract);
      && EntitiesOf(w'.entities, chunkId)
         == EntitiesOf(w.entities, chunkId) + (if chunkId == c.id then NewEntities(x.entities, c.id, w.nextEntityId) else [])
      && RelationsOf(w'.relations, chunkId)
         == RelationsOf(w.relations, chunkId) + (if chunkId == c.id then NewRelations(x.triplets, c.id, w.nextRelationId) else [])
  {
    var x := extract(c.text);
    var ne := NewEntities(x.entities, c.id, w.nextEntityId);
    var nr := NewRelations(x.triplets, c.id, w.nextRelationId);
    EntitiesOfAppend(w.entities, ne, chunkId);
    RelationsOfAppend(w.relations, nr, chunkId);
    if ne == [] {
      assert EntitiesOf(ne, chunkId) == [];
    } else {
      EntitiesOfUniform(ne, chunkId);
    }
    if nr == [] {
      assert RelationsOf(nr, chunkId) == [];
    } else {
      RelationsOfUniform(nr, chunkId);
    }
  }

  // ---------------------------------------------------------------------------
  // The dual-store contract
  // ---------------------------------------------------------------------------

  /** The objects the relational rows of w determine: a rebuild of the vector
      store from the tables alone. */
  function Derivable(w: World): set<Mirror>
  {
    (set e | e in w.entities :: EntityObject(e, e.chunkId))
    + (set r | r in w.relations :: RelationObject(r, r.chunkId))
  }

  /** Every entity and relation row of the chunk has its object in the vector store. */
  predicate ChunkMirrored(w: World, chunkId: nat)
  {
    && (forall e :: e in w.entities && e.chunkId == chunkId ==> EntityObject(e, chunkId) in w.mirrors)
    && (forall r :: r in w.relations && r.chunkId == chunkId ==> RelationObject(r, chunkId) in w.mirrors)
  }

  /** The two stores agree: the vector store holds nothing the relational rows
      do not determine, and a chunk flagged as done has all its rows mirrored. */
  predicate Consistent(w: World)
  {
    && (forall m :: m in w.mirrors ==> m in Derivable(w))
    && (forall k :: 0 <= k < |w.chunks| && w.chunks[k].traiteNer == Some(true) ==> ChunkMirrored(w, w.chunks[k].id))
  }

  /** No row of the chunks table with this id is flagged. */
  predicate Unflagged(cs: seq<NerChunk>, chunkId: nat)
  {
    forall k :: 0 <= k < |cs| && cs[k].id == chunkId ==> cs[k].traiteNer != Some(true)
  }

  lemma DerivableGrows(w: World, w': World)
    requires forall e :: e in w.entities ==> e in w'.entities
    requires forall r :: r in w.relations ==> r in w'.relations
    ensures Derivable(w) <= Derivable(w')
  {
    forall m | m in Derivable(w)
      ensures m in Derivable(w')
    {
      if e :| e in w.entities && m == EntityObject(e, e.chunkId) {
        assert e in w'.entities;
      } else {
        var r :| r in w.relations && m == RelationObject(r, r.chunkId);
        assert r in w'.relations;
      }
    }
  }

  lemma EntityObjectsDerivable(w: World, ents: seq<EntityRow>, chunkId: nat)
    requires forall e :: e in ents ==> e in w.entities && e.chunkId == chunkId
    ensures forall m :: m in EntityObjects(ents, chunkId) ==> m in Derivable(w)
  {
    forall m | m in EntityObjects(ents, chunkId)
      ensures m in Derivable(w)
    {
      var k :| 0 <= k < |ents| && EntityObjects(ents, chunkId)[k] == m;
      var e := ents[k];
      assert e in ents;
      assert m == EntityObject(e, e.chunkId);
    }
  }

  lemma RelationObjectsDerivable(w: World, rels: seq<RelationRow>, chunkId: nat)
    requires forall r :: r in rels ==> r in w.relations && r.chunkId == chunkId
    ensures forall m :: m in RelationObjects(rels, chunkId) ==> m in Derivable(w)
  {
    forall m | m in RelationObjects(rels, chunkId)
      ensures m in Derivable(w)
    {
      var k :| 0 <= k < |rels| && RelationObjects(rels, chunkId)[k] == m;
      var r := rels[k];
      assert r in rels;
      assert m == RelationObject(r, r.chunkId);
    }
  }

  /** A chunk's objects are objects of its own rows. */
  lemma ChunkObjectsDerivable(w: World, chunkId: nat)
    ensures forall m :: m in ChunkObjects(w.entities, w.relations, chunkId) ==> m in Derivable(w)
  {
    var eo := EntityObjects(EntitiesOf(w.entities, chunkId), chunkId);
    var ro := RelationObjects(RelationsOf(w.relations, chunkId), chunkId);
    EntityObjectsDerivable(w, EntitiesOf(w.entities, chunkId), chunkId);
    RelationObjectsDerivable(w, RelationsOf(w.relations, chunkId), chunkId);
    assert forall m :: m in eo + ro ==> m in eo || m in ro;
  }

  /** A chunk stays fully mirrored when it gains no row and no object is lost. */
  lemma MirroredMonotone(w: World, w': World, chunkId: nat)
    requires ChunkMirrored(w, chunkId)
    requires forall e :: e in w'.entities && e.chunkId == chunkId ==> e in w.entities
    requires forall r :: r in w'.relations && r.chunkId == chunkId ==> r in w.relations
    requires forall m :: m in w.mirrors ==> m in w'.mirrors
    ensures ChunkMirrored(w', chunkId)
  {
  }

  /** The state a crash leaves behind once chunk c's rows are committed and
      the first n of its objects are written. */
  function CrashPoint(w: World, c: NerChunk, x: Extraction, n: nat): World
    requires n <= |ChunkObjects(WithRows(w, c, x).entities, WithRows(w, c, x).relations, c.id)|
  {
    var w1 := WithRows(w, c, x);
    w1.(mirrors := w1.mirrors + ChunkObjects(w1.entities, w1.relations, c.id)[..n])
  }

  /** Processing a chunk that is not yet flagged keeps the two stores
      consistent at every point where a crash could stop it: after the row
      commit, after any number of its objects, and after the flag commit. */
  lemma {:induction false} ChunkKeepsConsistent(w: World, c: NerChunk, x: Extraction)
    requires Consistent(w) && Unflagged(w.chunks, c.id)
    ensures forall n :: 0 <= n <= |ChunkObjects(WithRows(w, c, x).entities, WithRows(w, c, x).relations, c.id)| ==> Consistent(CrashPoint(w, c, x, n))
    ensures Consistent(WithFlag(WithMirrors(WithRows(w, c, x), c.id), c.id))
  {
    var w1 := WithRows(w, c, x);
    var objs := ChunkObjects(w1.entities, w1.relations, c.id);
    var ne := NewEntities(x.entities, c.id, w.nextEntityId);
    var nr := NewRelations(x.triplets, c.id, w.nextRelationId);
    assert forall e :: e in ne ==> e.chunkId == c.id;
    assert forall r :: r in nr ==> r.chunkId == c.id;
    DerivableGrows(w, w1);
    ChunkObjectsDerivable(w1, c.id);
    forall n | 0 <= n <= |objs|
      ensures Consistent(CrashPoint(w, c, x, n))
    {
      var cp := CrashPoint(w, c, x, n);
      forall m | m in cp.mirrors
        ensures m in Derivable(cp)
      {
        if m !in w.mirrors {
          assert m in objs[..n];
        }
      }
      forall k | 0 <= k < |cp.chunks| && cp.chunks[k].traiteNer == Some(true)
        ensures ChunkMirrored(cp, cp.chunks[k].id)
      {
        MirroredMonotone(w, cp, cp.chunks[k].id);
      }
    }
    var w2 := WithMirrors(w1, c.id);
    var w3 := WithFlag(w2, c.id);
    ChunkObjectsCover(w1.mirrors, w1.entities, w1.relations, c.id);
    assert CrashPoint(w, c, x, |objs|) == w2;
    forall k | 0 <= k < |w3.chunks| && w3.chunks[k].traiteNer == Some(true)
      ensures ChunkMirrored(w3, w3.chunks[k].id)
    {
      if w.chunks[k].id != c.id {
        assert w3.chunks[k] == w.chunks[k];
        MirroredMonotone(w, w3, w.chunks[k].id);
      }
    }
  }

  // ---------------------------------------------------------------------------
  // A whole run
  // ---------------------------------------------------------------------------

  function ChunkIds(cs: seq<NerChunk>): seq<nat>
  {
    seq(|cs|, k requires 0 <= k < |cs| => cs[k].id)
  }

  function IdSet(cs: seq<NerChunk>): set<nat>
  {
    set c | c in cs :: c.id
  }

  /** Exactly the chunks whose flag is false are selected; a NULL flag is not. */
  lemma {:induction false} SelectedExactly(cs: seq<NerChunk>)
    ensures forall c :: c in Selected(cs) <==> c in cs && c.traiteNer == Some(false)
  {
    if cs != [] {
      SelectedExactly(cs[1..]);
      assert forall c :: c in cs <==> c == cs[0] || c in cs[1..];
    }
  }

  /** With a primary-key id column, the selection has no id twice either. */
  lemma {:induction false} SelectedDistinct(cs: seq<NerChunk>)
    requires Distinct(ChunkIds(cs))
    ensures Distinct(ChunkIds(Selected(cs)))
  {
    if cs != [] {
      var t := cs[1..];
      assert ChunkIds(t) == ChunkIds(cs)[1..];
      SelectedDistinct(t);
      var st := Selected(t);
      if cs[0].traiteNer == Some(false) {
        forall k | 0 <= k < |t|
          ensures t[k].id != cs[0].id
        {
          assert ChunkIds(cs)[0] == cs[0].id && ChunkIds(cs)[k + 1] == t[k].id;
        }
        SelectedAvoids(t, cs[0].id);
        assert ChunkIds(Selected(cs)) == [cs[0].id] + ChunkIds(st);
        DistinctCons(cs[0].id, ChunkIds(st));
      }
    }
  }

  /** An id that no chunk has is not selected. */
  lemma SelectedAvoids(cs: seq<NerChunk>, x: nat)
    requires forall k :: 0 <= k < |cs| ==> cs[k].id != x
    ensures forall j :: 0 <= j < |Selected(cs)| ==> ChunkIds(Selected(cs))[j] != x
  {
    var st := Selected(cs);
    forall j | 0 <= j < |st|
      ensures ChunkIds(st)[j] != x
    {
      assert st[j] in st;
    }
  }

  /** The flag update for one id leaves the rows with any other id alone. */
  lemma MarkNerOthers(cs: seq<NerChunk>, chunkId: nat, other: nat)
    requires other != chunkId && Unflagged(cs, other)
    ensures Unflagged(MarkNer(cs, chunkId), other)
  {
  }

  /** A run over chunks none of which is flagged, with no id twice, keeps the
      two stores consistent. */
  lemma {:induction false} RunKeepsConsistent(w: World, sel: seq<NerChunk>, extract: string -> Extraction)
    requires Consistent(w) && Distinct(ChunkIds(sel))
    requires forall j :: 0 <= j < |sel| ==> Unflagged(w.chunks, sel[j].id)
    ensures Consistent(AfterRun(w, sel, extract))
    decreases |sel|
  {
    if sel != [] {
      var c := sel[0];
      ChunkKeepsConsistent(w, c, extract(c.text));
      var w' := AfterChunk(w, c, extract);
      var t := sel[1..];
      forall j | 0 <= j < |t|
        ensures Unflagged(w'.chunks, t[j].id)
      {
        assert ChunkIds(sel)[j + 1] == t[j].id && ChunkIds(sel)[0] == c.id;
        MarkNerOthers(w.chunks, c.id, t[j].id);
      }
      assert ChunkIds(t) == ChunkIds(sel)[1..];
      RunKeepsConsistent(w', t, extract);
    }
  }

  /** extract_entities_relations keeps the two stores consistent. */
  lemma StageKeepsConsistent(w: World, extract: string -> Extraction)
    requires Consistent(w) && Distinct(ChunkIds(w.chunks))
    ensures Consistent(AfterRun(w, Selected(w.chunks), extract))
  {
    var sel := Selected(w.chunks);
    SelectedDistinct(w.chunks);
    forall j | 0 <= j < |sel|
      ensures Unflagged(w.chunks, sel[j].id)
    {
      assert sel[j] in sel;
      var a :| 0 <= a < |w.chunks| && w.chunks[a] == sel[j];
      forall k | 0 <= k < |w.chunks| && w.chunks[k].id == sel[j].id
        ensures w.chunks[k].traiteNer != Some(true)
      {
        assert ChunkIds(w.chunks)[k] == ChunkIds(w.chunks)[a];
      }
    }
    RunKeepsConsistent(w, sel, extract);
  }

  /** A run only sets flags, and sets exactly those of the rows whose id a
      processed chunk carries. */
  lemma {:induction false} RunChunks(w: World, sel: seq<NerChunk>, extract: string -> Extraction)
    ensures |AfterRun(w, sel, extract).chunks| == |w.chunks|
    ensures forall k :: 0 <= k < |w.chunks| ==>
      AfterRun(w, sel, extract).chunks[k]
      == if w.chunks[k].id in IdSet(sel) then w.chunks[k].(traiteNer := Some(true)) else w.chunks[k]
    decreases |sel|
  {
    if sel != [] {
      RunChunks(AfterChunk(w, sel[0], extract), sel[1..], extract);
      assert forall c :: c in sel <==> c == sel[0] || c in sel[1..];
      assert IdSet(sel) == {sel[0].id} + IdSet(sel[1..]);
    }
  }

  /** After a run, every chunk whose flag was false is flagged, and every other
      chunk, flagged or NULL, is as it was. */
  lemma RunFlags(w: World, extract: string -> Extraction)
    requires Distinct(ChunkIds(w.chunks))
    ensures var after := AfterRun(w, Selected(w.chunks), extract).chunks;
      && |after| == |w.chunks|
      && forall k :: 0 <= k < |w.chunks| ==>
           after[k] == if w.chunks[k].traiteNer == Some(false) then w.chunks[k].(traiteNer := Some(true)) else w.chunks[k]
  {
    RunChunks(w, Selected(w.chunks), extract);
    SelectedIds(w.chunks);
  }

  /** With no id twice, a chunk's id is among the selected ones exactly when
      its own flag is false. */
  lemma SelectedIds(cs: seq<NerChunk>)
    requires Distinct(ChunkIds(cs))
    ensures forall k :: 0 <= k < |cs| ==> (cs[k].id in IdSet(Selected(cs)) <==> cs[k].traiteNer == Some(false))
  {
    var sel := Selected(cs);
    forall k | 0 <= k < |cs|
      ensures cs[k].id in IdSet(sel) <==> cs[k].traiteNer == Some(false)
    {
      if cs[k].traiteNer == Some(false) {
        SelectedExactly(cs);
        assert cs[k] in sel;
      }
      if cs[k].id in IdSet(sel) {
        var s :| s in sel && s.id == cs[k].id;
        var a :| 0 <= a < |cs| && cs[a] == s;
        SameIdSameIndex(cs, a, k);
      }
    }
  }

  lemma SameIdSameIndex(cs: seq<NerChunk>, a: nat, k: nat)
    requires Distinct(ChunkIds(cs)) && a < |cs| && k < |cs| && cs[a].id == cs[k].id
    ensures a == k
  {
    assert ChunkIds(cs)[a] == ChunkIds(cs)[k];
  }

  /** Nothing is selected exactly when no flag is false. */
  lemma {:induction false} NothingSelected(cs: seq<NerChunk>)
    ensures Selected(cs) == [] <==> forall k :: 0 <= k < |cs| ==> cs[k].traiteNer != Some(false)
  {
    if cs != [] {
      NothingSelected(cs[1..]);
      assert forall k :: 1 <= k < |cs| ==> cs[k] == cs[1..][k - 1];
    }
  }

  /** A second run right after a run finds nothing to do. */
  lemma SecondRunIdle(w: World, extract: string -> Extraction)
    requires Distinct(ChunkIds(w.chunks))
    ensures Selected(AfterRun(w, Selected(w.chunks), extract).chunks) == []
  {
    RunFlags(w, extract);
    NothingSelected(AfterRun(w, Selected(w.chunks), extract).chunks);
  }

  /** Beacons for different chunks differ. */
  lemma BeaconsDiffer(a: nat, b: nat)
    requires a != b
    ensures Beacon(a) != Beacon(b)
  {
    BeaconNamesChunk(a);
    BeaconNamesChunk(b);
  }

  /** Every object processing chunk c adds points at c. */
  lemma ChunkObjectsBeacon(entities: seq<EntityRow>, relations: seq<RelationRow>, chunkId: nat)
    ensures forall m :: m in ChunkObjects(entities, relations, chunkId) ==> m.beacon == Beacon(chunkId)
  {
    var es := EntityObjects(EntitiesOf(entities, chunkId), chunkId);
    var rs := RelationObjects(RelationsOf(relations, chunkId), chunkId);
    assert forall m :: m in es + rs ==> m in es || m in rs;
  }

  /** A run over a selection that does not hold id gives chunk id no new
      entity or relation row and no new object: the rows of id are what they
      were, the objects already written are kept, and every object added
      points at another chunk. */
  lemma {:induction false} RunLeavesOthers(w: World, sel: seq<NerChunk>, extract: string -> Extraction, id: nat)
    requires id !in IdSet(sel)
    ensures var after := AfterRun(w, sel, extract);
      && EntitiesOf(after.entities, id) == EntitiesOf(w.entities, id)
      && RelationsOf(after.relations, id) == RelationsOf(w.relations, id)
      && |w.mirrors| <= |after.mirrors| && after.mirrors[..|w.mirrors|] == w.mirrors
      && forall k :: |w.mirrors| <= k < |after.mirrors| ==> after.mirrors[k].beacon != Beacon(id)
    decreases |sel|
  {
    if sel != [] {
      var c := sel[0];
      var w1 := AfterChunk(w, c, extract);
      assert c in sel;
      assert c.id != id;
      RowsOfChunk(w, c, extract, id);
      assert IdSet(sel[1..]) <= IdSet(sel) by {
        forall x | x in sel[1..] ensures x in sel { }
      }
      RunLeavesOthers(w1, sel[1..], extract, id);
      var w0 := WithRows(w, c, extract(c.text));
      var added := ChunkObjects(w0.entities, w0.relations, c.id);
      assert w1.mirrors == w.mirrors + added;
      ChunkObjectsBeacon(w0.entities, w0.relations, c.id);
      BeaconsDiffer(c.id, id);
      var after := AfterRun(w1, sel[1..], extract);
      forall k | |w.mirrors| <= k < |after.mirrors|
        ensures after.mirrors[k].beacon != Beacon(id)
      {
        if k < |w1.mirrors| {
          assert after.mirrors[k] == w1.mirrors[k] == added[k - |w.mirrors|];
          assert added[k - |w.mirrors|] in added;
        }
      }
      assert after.mirrors[..|w.mirrors|] == w1.mirrors[..|w1.mirrors|][..|w.mirrors|];
    }
  }

  /** With unique ids, a chunk whose flag is true or NULL gains, from a run,
      no entity row, no relation row and no object. */
  lemma FlaggedNerChunkUntouched(w: World, extract: string -> Extraction, c: NerChunk)
    requires Distinct(ChunkIds(w.chunks))
    requires c in w.chunks && c.traiteNer != Some(false)
    ensures var after := AfterRun(w, Selected(w.chunks), extract);
      && EntitiesOf(after.entities, c.id) == EntitiesOf(w.entities, c.id)
      && RelationsOf(after.relations, c.id) == RelationsOf(w.relations, c.id)
      && |w.mirrors| <= |after.mirrors| && after.mirrors[..|w.mirrors|] == w.mirrors
      && forall k :: |w.mirrors| <= k < |after.mirrors| ==> after.mirrors[k].beacon != Beacon(c.id)
  {
    var k :| 0 <= k < |w.chunks| && w.chunks[k] == c;
    SelectedIds(w.chunks);
    RunLeavesOthers(w, Selected(w.chunks), extract, c.id);
  }

  // ---------------------------------------------------------------------------
  // Re-processing, and what a mirror records
  // ---------------------------------------------------------------------------

  /** After a chunk is processed, every entity and relation row carrying its
      id has its object, rows left by an earlier interrupted attempt included. */
  lemma ProcessedChunkMirrored(w: World, c: NerChunk, extract: string -> Extraction)
    ensures ChunkMirrored(AfterChunk(w, c, extract), c.id)
  {
    var w1 := WithRows(w, c, extract(c.text));
    ChunkObjectsCover(w1.mirrors, w1.entities, w1.relations, c.id);
  }

  /** Processing is at least once. A crash after the row commit of chunk c,
      with any number n of its objects written, leaves its flag false, so the
      next run selects c again; processing it again adds every extracted
      entity and relation a second time, and then mirrors all of its rows. */
  lemma AtLeastOnce(w: World, c: NerChunk, extract: string -> Extraction, n: nat)
    requires n <= |ChunkObjects(WithRows(w, c, extract(c.text)).entities, WithRows(w, c, extract(c.text)).relations, c.id)|
    ensures var crashed := CrashPoint(w, c, extract(c.text), n);
      && crashed.chunks == w.chunks
      && Selected(crashed.chunks) == Selected(w.chunks)
      && |EntitiesOf(AfterChunk(crashed, c, extract).entities, c.id)|
         == |EntitiesOf(w.entities, c.id)| + 2 * |extract(c.text).entities|
      && |RelationsOf(AfterChunk(crashed, c, extract).relations, c.id)|
         == |RelationsOf(w.relations, c.id)| + 2 * |extract(c.text).triplets|
      && ChunkMirrored(AfterChunk(crashed, c, extract), c.id)
  {
    var x := extract(c.text);
    var crashed := CrashPoint(w, c, x, n);
    RowsOfChunk(w, c, extract, c.id);
    RowsOfChunk(crashed, c, extract, c.id);
    ProcessedChunkMirrored(crashed, c, extract);
  }

  /** The chunk a beacon points at can be read back from it. */
  lemma BeaconNamesChunk(chunkId: nat)
    ensures Beacon(chunkId)[..|BeaconPrefix|] == BeaconPrefix
    ensures ParseNat(Beacon(chunkId)[|BeaconPrefix|..]) == Some(chunkId)
  {
    assert Beacon(chunkId)[|BeaconPrefix|..] == NatToString(chunkId);
    ParseNatToString(chunkId);
  }

  /** An entity object carries its row's text and label, its uuid reads back
      as the row's id, and its beacon names the chunk. */
  lemma EntityObjectRecordsRow(e: EntityRow, chunkId: nat)
    ensures var m := EntityObject(e, chunkId);
      && m.EntityMirror? && ParseNat(m.uuid) == Some(e.id)
      && m.text == e.text && m.category == e.category
      && ParseNat(m.beacon[|BeaconPrefix|..]) == Some(chunkId)
  {
    ParseNatToString(e.id);
    BeaconNamesChunk(chunkId);
  }

  /** A relation object carries its row's subject, verb and object, its uuid
      reads back as the row's id, and its beacon names the chunk. */
  lemma RelationObjectRecordsRow(r: RelationRow, chunkId: nat)
    ensures var m := RelationObject(r, chunkId);
      && m.RelationMirror? && ParseNat(m.uuid) == Some(r.id)
      && m.subject == r.subject && m.verb == r.verb && m.obj == r.obj
      && ParseNat(m.beacon[|BeaconPrefix|..]) == Some(chunkId)
  {
    ParseNatToString(r.id);
    BeaconNamesChunk(chunkId);
  }

  /** Every entity id is below the next one the sequence gives, and none is
      used twice. */
  predicate FreshEntityIds(es: seq<EntityRow>, next: nat)
  {
    && (forall k :: 0 <= k < |es| ==> es[k].id < next)
    && (forall i, j :: 0 <= i < j < |es| ==> es[i].id != es[j].id)
  }

  /** The same for relation ids. */
  predicate FreshRelationIds(rs: seq<RelationRow>, next: nat)
  {
    && (forall k :: 0 <= k < |rs| ==> rs[k].id < next)
    && (forall i, j :: 0 <= i < j < |rs| ==> rs[i].id != rs[j].id)
  }

  /** Row ids come from sequences that only move forward: every id already
      used is below the next one, and no id is used twice. */
  predicate FreshIds(w: World)
  {
    FreshEntityIds(w.entities, w.nextEntityId) && FreshRelationIds(w.relations, w.nextRelationId)
  }

  lemma NewEntitiesFresh(es: seq<EntityRow>, next: nat, pairs: seq<(string, string)>, chunkId: nat)
    requires FreshEntityIds(es, next)
    ensures FreshEntityIds(es + NewEntities(pairs, chunkId, next), next + |pairs|)
  {
    var r := es + NewEntities(pairs, chunkId, next);
    forall k | |es| <= k < |r|
      ensures r[k].id == next + (k - |es|)
    {
    }
  }

  lemma NewRelationsFresh(rs: seq<RelationRow>, next: nat, ts: seq<(string, string, string)>, chunkId: nat)
    requires FreshRelationIds(rs, next)
    ensures FreshRelationIds(rs + NewRelations(ts, chunkId, next), next + |ts|)
  {
    var r := rs + NewRelations(ts, chunkId, next);
    forall k | |rs| <= k < |r|
      ensures r[k].id == next + (k - |rs|)
    {
    }
  }

  /** Processing a chunk keeps ids fresh. */
  lemma ChunkKeepsIdsFresh(w: World, c: NerChunk, extract: string -> Extraction)
    requires FreshIds(w)
    ensures FreshIds(AfterChunk(w, c, extract))
  {
    var x := extract(c.text);
    NewEntitiesFresh(w.entities, w.nextEntityId, x.entities, c.id);
    NewRelationsFresh(w.relations, w.nextRelationId, x.triplets, c.id);
  }

  /** A run keeps ids fresh. */
  lemma {:induction false} RunKeepsIdsFresh(w: World, sel: seq<NerChunk>, extract: string -> Extraction)
    requires FreshIds(w)
    ensures FreshIds(AfterRun(w, sel, extract))
    decreases |sel|
  {
    if sel != [] {
      ChunkKeepsIdsFresh(w, sel[0], extract);
      RunKeepsIdsFresh(AfterChunk(w, sel[0], extract), sel[1..], extract);
    }
  }

  /** With fresh ids, two different entity rows never share a uuid, and
      neither do two different relation rows. */
  lemma UuidsIdentifyRows(w: World, chunkId: nat)
    requires FreshIds(w)
    ensures forall i, j :: 0 <= i < j < |w.entities| ==>
      EntityObject(w.entities[i], chunkId).uuid != EntityObject(w.entities[j], chunkId).uuid
    ensures forall i, j :: 0 <= i < j < |w.relations| ==>
      RelationObject(w.relations[i], chunkId).uuid != RelationObject(w.relations[j], chunkId).uuid
  {
    forall a: nat, b: nat | a != b
      ensures NatToString(a) != NatToString(b)
    {
      NatToStringInjective(a, b);
    }
  }
}
