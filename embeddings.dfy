/** The embedding stage (process_embeddings): every chunk not yet marked
    `traite` gets a vector from the embedding provider, one `embeddings` row,
    one object in the vector store, and its flag set; the relational writes
    share one transaction committed after the loop. */
module Embeddings {
  import opened Common

  /** The provider's vector. It is carried along and never inspected. */
  type Vector = seq<real>

  /** A row of the chunks table as this stage sees it; `traite` is nullable. */
  datatype ChunkRow = ChunkRow(id: nat, texte: string, traite: Option<bool>)

  /** A row of the embeddings table. */
  datatype EmbeddingRow = EmbeddingRow(chunkId: nat, vector: Vector)

  /** An object of the vector store's "Embedding" class: its properties and vector. */
  datatype EmbeddingObject = EmbeddingObject(chunkId: nat, texte: string, vector: Vector)

  /** What the embedding provider answers for one text: a vector, or an
      error (an HTTP failure raised by raise_for_status, say). */
  datatype ProviderResult = Embedded(vector: Vector) | ProviderError

  /** How a run ends: nothing selected, all selected chunks done and
      committed, or the provider failed on the chunk with the given id. */
  datatype Outcome = NothingToDo | Completed(count: nat) | ProviderFailed(chunkId: nat)

  /** The writes of a run, in the order they happen. */
  datatype Event =
    | EmbeddingInserted(chunkId: nat)
    | ObjectCreated(chunkId: nat)
    | TraiteSet(chunkId: nat)
    | Committed
    | RolledBack

  /** The selection condition: `traite` is false or NULL. */
  predicate Pending(c: ChunkRow)
  {
    c.traite != Some(true)
  }

  function Ids(cs: seq<ChunkRow>): seq<nat>
  {
    seq(|cs|, k requires 0 <= k < |cs| => cs[k].id)
  }

  /** The selected chunks, in table order. */
  function Unprocessed(cs: seq<ChunkRow>): (r: seq<ChunkRow>)
    ensures |r| <= |cs|
    ensures forall c :: c in r ==> Pending(c)
  {
    if cs == [] then []
    else if Pending(cs[0]) then [cs[0]] + Unprocessed(cs[1..])
    else Unprocessed(cs[1..])
  }

  /** How many selected chunks are handled before the provider first fails:
      all of them when it never fails. */
  function Processed(sel: seq<ChunkRow>, provider: string -> ProviderResult): (n: nat)
    ensures n <= |sel|
  {
    if sel == [] || provider(sel[0].texte).ProviderError? then 0
    else 1 + Processed(sel[1..], provider)
  }

  /** The embeddings rows the loop inserts, one per chunk it gets through. */
  function Rows(sel: seq<ChunkRow>, provider: string -> ProviderResult): seq<EmbeddingRow>
  {
    if sel == [] || provider(sel[0].texte).ProviderError? then []
    else [EmbeddingRow(sel[0].id, provider(sel[0].texte).vector)] + Rows(sel[1..], provider)
  }

  /** The vector-store objects the loop creates, one per chunk it gets through. */
  function Objects(sel: seq<ChunkRow>, provider: string -> ProviderResult): seq<EmbeddingObject>
  {
    if sel == [] || provider(sel[0].texte).ProviderError? then []
    else
      var v := provider(sel[0].texte).vector;
      [EmbeddingObject(sel[0].id, sel[0].texte, v)] + Objects(sel[1..], provider)
  }

  /** The loop's writes: per chunk, the row insert, the object, then the flag. */
  function Events(sel: seq<ChunkRow>, provider: string -> ProviderResult): seq<Event>
  {
    if sel == [] || provider(sel[0].texte).ProviderError? then []
    else
      var id := sel[0].id;
      [EmbeddingInserted(id), ObjectCreated(id), TraiteSet(id)] + Events(sel[1..], provider)
  }

  /** UPDATE chunks SET traite = true WHERE id = id. */
  function MarkTraite(cs: seq<ChunkRow>, id: nat): (r: seq<ChunkRow>)
  {
    seq(|cs|, k requires 0 <= k < |cs| => if cs[k].id == id then cs[k].(traite := Some(true)) else cs[k])
  }

  /** The flag updates for each chunk of sel, in order. */
  function MarkAll(cs: seq<ChunkRow>, sel: seq<ChunkRow>): seq<ChunkRow>
    decreases |sel|
  {
    if sel == [] then cs else MarkAll(MarkTraite(cs, sel[0].id), sel[1..])
  }

  /** How a run over the selection sel ends. */
  function RunOutcome(sel: seq<ChunkRow>, provider: string -> ProviderResult): Outcome
  {
    if sel == [] then NothingToDo
    else if Processed(sel, provider) == |sel| then Completed(|sel|)
    else ProviderFailed(sel[Processed(sel, provider)].id)
  }

  /** The event that closes a run: the commit, the rollback when the provider's
      exception leaves the connection's block, or none when nothing was selected. */
  function Closing(outcome: Outcome): seq<Event>
  {
    match outcome
    case NothingToDo => []
    case Completed(_) => [Committed]
    case ProviderFailed(_) => [RolledBack]
  }

  /** The transaction's rows hold a row for the chunk with this id. */
  predicate HasRow(rows: seq<EmbeddingRow>, chunkId: nat)
  {
    exists k :: 0 <= k < |rows| && rows[k].chunkId == chunkId
  }

  /** The vector store holds an object for the chunk with this id. */
  predicate HasObject(objects: seq<EmbeddingObject>, chunkId: nat)
  {
    exists k :: 0 <= k < |objects| && objects[k].chunkId == chunkId
  }

  /** The relational tables (durable state), the open transaction's view of
      them, the vector store, and the history of writes. */
  class EmbeddingStage {
    var chunks: seq<ChunkRow>
    var embeddings: seq<EmbeddingRow>
    var txChunks: seq<ChunkRow>
    var txRows: seq<EmbeddingRow>
    var objects: seq<EmbeddingObject>
    ghost var trace: seq<Event>

    constructor(initial: seq<ChunkRow>)
      ensures chunks == initial && embeddings == [] && objects == [] && trace == []
      ensures txChunks == chunks && txRows == embeddings
    {
      chunks := initial;
      embeddings := [];
      txChunks := initial;
      txRows := [];
      objects := [];
      trace := [];
    }

    /** scripts/process_embeddings.py:93-94: the row goes to the transaction. */
    method InsertEmbedding(chunkId: nat, vector: Vector)
      modifies this`txRows, this`trace
      ensures txRows == old(txRows) + [EmbeddingRow(chunkId, vector)]
      ensures HasRow(txRows, chunkId)
      ensures trace == old(trace) + [EmbeddingInserted(chunkId)]
    {
      txRows := txRows + [EmbeddingRow(chunkId, vector)];
      assert txRows[|txRows| - 1].chunkId == chunkId;
      trace := trace + [EmbeddingInserted(chunkId)];
    }

    /** scripts/process_embeddings.py:97-104: the object is written to the
        vector store at once, outside the transaction. */
    method CreateObject(chunk: ChunkRow, vector: Vector)
      modifies this`objects, this`trace
      ensures objects == old(objects) + [EmbeddingObject(chunk.id, chunk.texte, vector)]
      ensures HasObject(objects, chunk.id)
      ensures trace == old(trace) + [ObjectCreated(chunk.id)]
    {
      objects := objects + [EmbeddingObject(chunk.id, chunk.texte, vector)];
      assert objects[|objects| - 1].chunkId == chunk.id;
      trace := trace + [ObjectCreated(chunk.id)];
    }

    /** scripts/process_embeddings.py:107-112: the flag update goes to the
        transaction. It may only happen once the chunk's row is in the
        transaction and its object is in the vector store. */
    method UpdateTraite(chunkId: nat)
      requires HasRow(txRows, chunkId) && HasObject(objects, chunkId)
      modifies this`txChunks, this`trace
      ensures txChunks == MarkTraite(old(txChunks), chunkId)
      ensures trace == old(trace) + [TraiteSet(chunkId)]
    {
      txChunks := MarkTraite(txChunks, chunkId);
      trace := trace + [TraiteSet(chunkId)];
    }

    /** One successful turn of the loop (scripts/process_embeddings.py:93-112):
        the row, then the object, then the flag. */
    method EmbedChunk(chunk: ChunkRow, vector: Vector)
      modifies this`txRows, this`objects, this`txChunks, this`trace
      ensures txRows == old(txRows) + [EmbeddingRow(chunk.id, vector)]
      ensures objects == old(objects) + [EmbeddingObject(chunk.id, chunk.texte, vector)]
      ensures txChunks == MarkTraite(old(txChunks), chunk.id)
      ensures trace == old(trace) + [EmbeddingInserted(chunk.id), ObjectCreated(chunk.id), TraiteSet(chunk.id)]
    {
      ghost var t0 := trace;
      InsertEmbedding(chunk.id, vector);
      CreateObject(chunk, vector);
      UpdateTraite(chunk.id);
      EventsAppend(t0, chunk.id);
    }

    /** process_embeddings. The flag updates and row inserts go to a
        transaction that becomes the durable state only at the commit after
        the loop (a provider failure rolls it back); the vector-store objects
        are written at once and stay. */
    method ProcessEmbeddings(provider: string -> ProviderResult) returns (outcome: Outcome)
      requires txChunks == chunks && txRows == embeddings
      modifies this
      ensures outcome == RunOutcome(Unprocessed(old(chunks)), provider)
      ensures outcome.Completed? ==>
        chunks == MarkAll(old(chunks), Unprocessed(old(chunks))) &&
        embeddings == old(embeddings) + Rows(Unprocessed(old(chunks)), provider)
      ensures !outcome.Completed? ==> chunks == old(chunks) && embeddings == old(embeddings)
      ensures txChunks == chunks && txRows == embeddings
      ensures objects == old(objects) + Objects(Unprocessed(old(chunks)), provider)
      ensures trace == old(trace) + Events(Unprocessed(old(chunks)), provider) + Closing(outcome)
    {
      var sel := Unprocessed(chunks);
      if sel == [] {
        return NothingToDo;
      }
      ghost var objects0 := objects;
      ghost var trace0 := trace;
      var i := 0;
      while i < |sel|
        invariant 0 <= i <= Processed(sel, provider)
        invariant MarkAll(txChunks, sel[i..]) == MarkAll(old(chunks), sel)
        invariant Processed(sel[i..], provider) == Processed(sel, provider) - i
        invariant txRows + Rows(sel[i..], provider) == old(embeddings) + Rows(sel, provider)
        invariant objects + Objects(sel[i..], provider) == objects0 + Objects(sel, provider)
        invariant trace + Events(sel[i..], provider) == trace0 + Events(sel, provider)
        invariant chunks == old(chunks) && embeddings == old(embeddings)
      {
        var chunk := sel[i];
        var answer := provider(chunk.texte);
        if answer.ProviderError? {
          txChunks, txRows := chunks, embeddings;
          trace := trace + [RolledBack];
          return ProviderFailed(chunk.id);
        }
        Step(sel, i, provider, txRows, objects, trace);
        EmbedChunk(chunk, answer.vector);
        i := i + 1;
      }
      assert sel[i..] == [];
      chunks, embeddings := txChunks, txRows;
      trace := trace + [Committed];
      outcome := Completed(|sel|);
    }
  }

  /** Three events appended one at a time are the three appended at once. */
  lemma EventsAppend(t: seq<Event>, id: nat)
    ensures t + [EmbeddingInserted(id)] + [ObjectCreated(id)] + [TraiteSet(id)]
      == t + [EmbeddingInserted(id), ObjectCreated(id), TraiteSet(id)]
  {
  }

  /** One successful turn of the loop moves one chunk's writes from what is
      left to do onto what is done. */
  lemma Step(sel: seq<ChunkRow>, i: nat, provider: string -> ProviderResult,
             rows: seq<EmbeddingRow>, objects: seq<EmbeddingObject>, trace: seq<Event>)
    requires i < |sel| && provider(sel[i].texte).Embedded?
    ensures var c := sel[i]; var v := provider(c.texte).vector;
      && Processed(sel[i..], provider) == 1 + Processed(sel[i + 1..], provider)
      && rows + Rows(sel[i..], provider) == rows + [EmbeddingRow(c.id, v)] + Rows(sel[i + 1..], provider)
      && objects + Objects(sel[i..], provider) == objects + [EmbeddingObject(c.id, c.texte, v)] + Objects(sel[i + 1..], provider)
      && trace + Events(sel[i..], provider)
         == trace + [EmbeddingInserted(c.id), ObjectCreated(c.id), TraiteSet(c.id)] + Events(sel[i + 1..], provider)
      && sel[i..][1..] == sel[i + 1..]
  {
    var c := sel[i];
    var v := provider(c.texte).vector;
    var t := sel[i..];
    assert t[1..] == sel[i + 1..] && t[0] == c;
    assert Rows(t, provider) == [EmbeddingRow(c.id, v)] + Rows(sel[i + 1..], provider);
    assert Objects(t, provider) == [EmbeddingObject(c.id, c.texte, v)] + Objects(sel[i + 1..], provider);
    assert Events(t, provider) == [EmbeddingInserted(c.id), ObjectCreated(c.id), TraiteSet(c.id)] + Events(sel[i + 1..], provider);
  }


  // ---------------------------------------------------------------------------
  // What a run does, stated over the specification functions
  // ---------------------------------------------------------------------------

  /** The ids of the chunks in sel. */
  function IdSet(sel: seq<ChunkRow>): set<nat>
  {
    set c | c in sel :: c.id
  }

  /** Exactly the chunks whose flag is false or NULL are selected. */
  lemma {:induction false} UnprocessedExactly(cs: seq<ChunkRow>)
    ensures forall c :: c in Unprocessed(cs) <==> c in cs && Pending(c)
  {
    if cs != [] {
      UnprocessedExactly(cs[1..]);
      assert forall c :: c in cs <==> c == cs[0] || c in cs[1..];
    }
  }

  /** With a primary-key id column, no chunk is selected twice, so no chunk
      gets two rows or two objects from one run. */
  lemma {:induction false} UnprocessedDistinct(cs: seq<ChunkRow>)
    requires Distinct(Ids(cs))
    ensures Distinct(Ids(Unprocessed(cs)))
  {
    if cs != [] {
      var t := cs[1..];
      assert Ids(t) == Ids(cs)[1..];
      UnprocessedDistinct(t);
      var st := Unprocessed(t);
      if Pending(cs[0]) {
        forall k | 0 <= k < |t|
          ensures t[k].id != cs[0].id
        {
          assert Ids(cs)[0] == cs[0].id && Ids(cs)[k + 1] == t[k].id;
        }
        UnprocessedAvoids(t, cs[0].id);
        assert Ids(Unprocessed(cs)) == [cs[0].id] + Ids(st);
        DistinctCons(cs[0].id, Ids(st));
      }
    }
  }

  /** An id that no chunk has is not selected. */
  lemma UnprocessedAvoids(cs: seq<ChunkRow>, x: nat)
    requires forall k :: 0 <= k < |cs| ==> cs[k].id != x
    ensures forall j :: 0 <= j < |Unprocessed(cs)| ==> Ids(Unprocessed(cs))[j] != x
  {
    var st := Unprocessed(cs);
    forall j | 0 <= j < |st|
      ensures Ids(st)[j] != x
    {
      UnprocessedExactly(cs);
      assert st[j] in st;
    }
  }

  /** Nothing is selected exactly when every chunk is flagged. */
  lemma {:induction false} NothingPending(cs: seq<ChunkRow>)
    ensures Unprocessed(cs) == [] <==> forall k :: 0 <= k < |cs| ==> cs[k].traite == Some(true)
  {
    if cs != [] {
      NothingPending(cs[1..]);
      assert forall k :: 1 <= k < |cs| ==> cs[k] == cs[1..][k - 1];
    }
  }

  /** Each chunk the loop gets through, in order, yields one embeddings row
      with its id and the provider's vector for its text, and one store object
      with its id, its text and that vector; the loop stops at the first chunk
      the provider fails on. */
  lemma {:induction false} WritesPerChunk(sel: seq<ChunkRow>, provider: string -> ProviderResult)
    ensures var n := Processed(sel, provider);
      && |Rows(sel, provider)| == n && |Objects(sel, provider)| == n
      && (n < |sel| ==> provider(sel[n].texte).ProviderError?)
      && forall k :: 0 <= k < n ==>
           && provider(sel[k].texte).Embedded?
           && Rows(sel, provider)[k] == EmbeddingRow(sel[k].id, provider(sel[k].texte).vector)
           && Objects(sel, provider)[k] == EmbeddingObject(sel[k].id, sel[k].texte, provider(sel[k].texte).vector)
  {
    if sel != [] && provider(sel[0].texte).Embedded? {
      WritesPerChunk(sel[1..], provider);
      forall k | 1 <= k < Processed(sel, provider)
        ensures sel[k] == sel[1..][k - 1]
      {
      }
    }
  }

  /** Per chunk, the row insert comes first, then the store object, then the
      flag update. */
  lemma {:induction false} EventsPerChunk(sel: seq<ChunkRow>, provider: string -> ProviderResult)
    ensures var n := Processed(sel, provider); var t := Events(sel, provider);
      && |t| == 3 * n
      && forall k :: 0 <= k < n ==>
           && t[3 * k] == EmbeddingInserted(sel[k].id)
           && t[3 * k + 1] == ObjectCreated(sel[k].id)
           && t[3 * k + 2] == TraiteSet(sel[k].id)
  {
    if sel != [] && provider(sel[0].texte).Embedded? {
      EventsPerChunk(sel[1..], provider);
      var t := Events(sel, provider);
      var u := Events(sel[1..], provider);
      forall k | 1 <= k < Processed(sel, provider)
        ensures t[3 * k] == EmbeddingInserted(sel[k].id)
        ensures t[3 * k + 1] == ObjectCreated(sel[k].id)
        ensures t[3 * k + 2] == TraiteSet(sel[k].id)
      {
        assert sel[k] == sel[1..][k - 1];
        assert t[3 * k] == u[3 * (k - 1)];
        assert t[3 * k + 1] == u[3 * (k - 1) + 1];
        assert t[3 * k + 2] == u[3 * (k - 1) + 2];
      }
    }
  }

  /** A flag is set only right after that chunk's row insert and store object. */
  lemma FlagAfterBothWrites(sel: seq<ChunkRow>, provider: string -> ProviderResult)
    ensures var t := Events(sel, provider);
      forall j :: 0 <= j < |t| && t[j].TraiteSet? ==>
        j >= 2 && t[j - 2] == EmbeddingInserted(t[j].chunkId) && t[j - 1] == ObjectCreated(t[j].chunkId)
  {
    EventsPerChunk(sel, provider);
    var t := Events(sel, provider);
    forall j | 0 <= j < |t| && t[j].TraiteSet?
      ensures j >= 2 && t[j - 2] == EmbeddingInserted(t[j].chunkId) && t[j - 1] == ObjectCreated(t[j].chunkId)
    {
      var k := j / 3;
      assert j == 3 * k + j % 3;
    }
  }

  /** The updates leave every row in place and set the flag of exactly the
      rows whose id some chunk of sel carries. */
  lemma {:induction false} MarkAllSpec(cs: seq<ChunkRow>, sel: seq<ChunkRow>)
    ensures |MarkAll(cs, sel)| == |cs|
    ensures forall k :: 0 <= k < |cs| ==>
      MarkAll(cs, sel)[k] == if cs[k].id in IdSet(sel) then cs[k].(traite := Some(true)) else cs[k]
    decreases |sel|
  {
    if sel != [] {
      var m := MarkTraite(cs, sel[0].id);
      MarkAllSpec(m, sel[1..]);
      assert forall c :: c in sel <==> c == sel[0] || c in sel[1..];
      assert IdSet(sel) == {sel[0].id} + IdSet(sel[1..]);
    }
  }

  /** After a run that completes, every chunk of the table is flagged, and
      nothing else about any chunk has changed. */
  lemma CompletedRunFlagsAll(cs: seq<ChunkRow>)
    ensures |MarkAll(cs, Unprocessed(cs))| == |cs|
    ensures forall k :: 0 <= k < |cs| ==> MarkAll(cs, Unprocessed(cs))[k] == cs[k].(traite := Some(true))
  {
    MarkAllSpec(cs, Unprocessed(cs));
    UnprocessedExactly(cs);
    forall k | 0 <= k < |cs|
      ensures MarkAll(cs, Unprocessed(cs))[k] == cs[k].(traite := Some(true))
    {
      if Pending(cs[k]) {
        assert cs[k] in Unprocessed(cs);
      }
    }
  }

  /** Flags only go from false or NULL to true: a chunk that was flagged stays
      flagged, and a chunk whose row changes was selected and is now flagged. */
  lemma FlagsOnlyRise(cs: seq<ChunkRow>, sel: seq<ChunkRow>)
    ensures |MarkAll(cs, sel)| == |cs|
    ensures forall k :: 0 <= k < |cs| ==>
      && (cs[k].traite == Some(true) ==> MarkAll(cs, sel)[k] == cs[k])
      && (MarkAll(cs, sel)[k] != cs[k] ==> Pending(cs[k]) && MarkAll(cs, sel)[k].traite == Some(true))
  {
    MarkAllSpec(cs, sel);
  }

  /** A second run after a completed one finds nothing to do. */
  lemma SecondRunIdle(cs: seq<ChunkRow>, provider: string -> ProviderResult)
    ensures Unprocessed(MarkAll(cs, Unprocessed(cs))) == []
    ensures RunOutcome(Unprocessed(MarkAll(cs, Unprocessed(cs))), provider) == NothingToDo
  {
    var after := MarkAll(cs, Unprocessed(cs));
    CompletedRunFlagsAll(cs);
    UnprocessedExactly(after);
    NothingPending(after);
  }

  /** With a primary-key id column, a chunk that is already flagged gains no
      embeddings row and no store object. */
  lemma FlaggedChunkUntouched(cs: seq<ChunkRow>, provider: string -> ProviderResult, c: ChunkRow)
    requires Distinct(Ids(cs))
    requires c in cs && c.traite == Some(true)
    ensures forall r :: r in Rows(Unprocessed(cs), provider) ==> r.chunkId != c.id
    ensures forall o :: o in Objects(Unprocessed(cs), provider) ==> o.chunkId != c.id
  {
    var sel := Unprocessed(cs);
    UnprocessedExactly(cs);
    WritesPerChunk(sel, provider);
    forall k | 0 <= k < |sel|
      ensures sel[k].id != c.id
    {
      assert sel[k] in cs;
      var a :| 0 <= a < |cs| && cs[a] == sel[k];
      var b :| 0 <= b < |cs| && cs[b] == c;
      assert Ids(cs)[a] == sel[k].id && Ids(cs)[b] == c.id;
      assert a != b;
    }
  }

  /** A run with no provider failure writes one row and one object per
      selected chunk, and its outcome reports that number. */
  lemma CompletedCounts(cs: seq<ChunkRow>, provider: string -> ProviderResult)
    requires RunOutcome(Unprocessed(cs), provider).Completed?
    ensures var sel := Unprocessed(cs);
      && RunOutcome(sel, provider).count == |sel|
      && |Rows(sel, provider)| == |sel| && |Objects(sel, provider)| == |sel|
  {
    WritesPerChunk(Unprocessed(cs), provider);
  }
}
