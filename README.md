# searchmodule pipeline core, modelled in Dafny

This project models the three data-loading stages of the searchmodule
pipeline and proves properties about them. The stages fill a relational
database (documents, chunks, embeddings, entities, relations) and a vector
store that mirrors part of it.

* **Ingestion** (`scripts/insert_text.py`, module `Ingest`, file `ingest.dfy`).
  - `parse_filename` reads an author and a title off a file name.
  - `split_into_chunks` cuts a text into stripped, non-empty paragraphs.
  - `insert_document_and_chunks` writes one document row and its chunk rows, numbered from 1, in one transaction.
  - Python's `os.path.basename`, `os.path.splitext`, `str.find`, `str.replace`, `str.title`, `str.split`, `str.strip` and `str.count` are written out for ASCII text.
  - The chunks table is a `Corpus` class whose method updates its sequences in place.
* **Embedding stage** (`scripts/process_embeddings.py`, module `Embeddings`, file `embeddings.dfy`).
  - Every chunk whose `traite` flag is false or NULL goes to the embedding provider.
  - It gets one `embeddings` row, one vector-store object, and its flag set.
  - The relational writes share a transaction that is committed after the loop.
  - The provider is an oracle, `string -> ProviderResult`, that returns a vector or fails.
  - `EmbeddingStage.ProcessEmbeddings` is the loop itself. It is proved against the specification functions `Unprocessed`, `Rows`, `Objects`, `Events` and `MarkAll`.
  - The stage keeps the open transaction's view (`txChunks`, `txRows`) apart from the durable tables.
  - Each write is a method that appends its own event to a ghost trace: `InsertEmbedding`, `CreateObject`, `UpdateTraite`.
  - `UpdateTraite` requires that the chunk's row is already in the transaction and its object already in the vector store.
* **Entity/relation stage** (`scripts/traite_ner.py`, module `Ner`, file `ner.dfy`).
  - For each chunk whose `traite_ner` flag is false, the extracted entities and relations become rows, which are committed.
  - Every relational row of the chunk is then mirrored into the vector store. Its uuid is `str(id)` and its beacon is `"weaviate://localhost/Chunk/<id>"`.
  - Only then is the flag set and committed.
  - The extractor is an oracle, `string -> Extraction`. Row ids come from monotone counters.
  - `NerStores` holds the session's tables, what has been committed, and the vector store.
  - The preconditions of its methods carry the stage's ordering rules:
    - a mirror may only be written for a committed row;
    - the flag may only be set once every row of the chunk is mirrored.
  - The method proofs show that the loop is exactly `AfterRun`, which is composed of the phase functions `WithRows`, `WithMirrors` and `WithFlag`.
  - The dual-store properties are lemmas over those functions:
    - `Consistent` is kept at every crash point;
    - processing is at least once;
    - flags only move from false to true.

`common.dfy` (module `Common`) holds `Option`, the primary-key predicate
`Distinct`, and `str(int)` with its inverse. The uuids and beacons are built
from these.

The model follows what the code does, including where a reader might expect otherwise:
- Without `_` in the stem the author is `"Inconnu"`, not `"Unknown"`.
- A provider exception in `process_embeddings` is not caught. It ends the loop, and leaving `with engine.connect()` without a commit rolls back every relational write of the run. The earlier chunks are therefore neither flagged nor given an `embeddings` row, while their vector-store objects remain. The model does not skip the failing chunk and carry on.
- `traite_ner == False` in SQL does not select a NULL flag, so the entity stage skips chunks whose flag is NULL.
- `str.title()` is CPython's rule: a cased character is upper-cased exactly when the character before it in the ORIGINAL string is not cased. For ASCII this is the per-character rule that `Ingest.Title` states.

## Model

| member | source | states |
|---|---|---|
| Common.NatToString | scripts/traite_ner.py:32 | `str(id)` is a non-empty string of decimal digits with no leading zero |
| Common.ParseNat | scripts/traite_ner.py:32 | reading a digit string back gives a number exactly when every character is a digit |
| Common.ParseNatToString | scripts/traite_ner.py:32 | reading `str(n)` back gives `n`: a uuid identifies its row id |
| Common.NatToStringInjective | scripts/traite_ner.py:43 | different ids give different uuid strings |
| Ingest.Upper | scripts/insert_text.py:39 | a lower-case letter becomes its upper-case partner (code point minus 32), and every other character is left alone |
| Ingest.Lower | scripts/insert_text.py:39 | an upper-case letter becomes its lower-case partner (code point plus 32), and every other character is left alone |
| Ingest.Title | scripts/insert_text.py:39-40 | `title()` keeps the length, changes only the case of letters, and leaves every non-letter as it was |
| Ingest.TitleCapitalisesWords | scripts/insert_text.py:39-40 | a letter comes out upper case exactly when it starts the string or follows a non-letter, and lower case otherwise |
| Ingest.TitleIdempotent | scripts/insert_text.py:39-40 | title-casing a title-cased string changes nothing |
| Ingest.TitleAcrossSpace | scripts/insert_text.py:39-40 | title-casing works word by word across a space |
| Ingest.TitleLowerWord | scripts/insert_text.py:39-40 | a lower-case word comes out with only its first letter capitalised |
| Ingest.RFind | scripts/insert_text.py:35 | the result is the index of the last occurrence of the character, or -1 when there is none |
| Ingest.Find | scripts/insert_text.py:37 | the result is the index of the first occurrence of the character, or -1 when there is none |
| Ingest.Basename | scripts/insert_text.py:35 | `basename` is a suffix of the path, holds no `/`, and is preceded by `/` when it is not the whole path |
| Ingest.SplitExtRoot | scripts/insert_text.py:36 | the root that `splitext` returns is a prefix of the name; which prefix is stated by the two lemmas that follow |
| Ingest.SplitExtRootRemovesExtension | scripts/insert_text.py:36 | whatever `splitext` removes is one extension: a `.` with no `.` or `/` after it, preceded in the last component by something other than dots; so a name without an extension is returned whole |
| Ingest.SplitExtRootFindsExtension | scripts/insert_text.py:36 | when the name has an extension starting at `d`, the root is exactly the name up to `d` |
| Ingest.SpaceForDash | scripts/insert_text.py:39-40 | `replace("-", " ")` keeps the length, turns every `-` into a space, and changes no other character |
| Ingest.ParseStem | scripts/insert_text.py:37-43 | neither the author nor the title contains `-` |
| Ingest.ParseFilename | scripts/insert_text.py:34-44 | neither returned string contains `-`; its full result is given by `ParseWithUnderscore`, `ParseWithoutUnderscore` and `DirectoryIrrelevant` |
| Ingest.ParseWithUnderscore | scripts/insert_text.py:37-40 | with a `_` in the stem, the author is the title-cased text before the first `_` with dashes as spaces, and the title is the rest, further `_` included |
| Ingest.ParseWithoutUnderscore | scripts/insert_text.py:41-43 | without `_`, the author is exactly `"Inconnu"` and the title is the whole title-cased stem with dashes as spaces |
| Ingest.DirectoryIrrelevant | scripts/insert_text.py:35-36 | a directory prefix changes neither the base name nor the parsed (author, title) |
| Ingest.BasenameAfterDir | scripts/insert_text.py:35 | the base name of `dir/base` is `base` |
| Ingest.TitleOfDashedPair | scripts/insert_text.py:39-40 | two lower-case words joined by `-` come out as two capitalised words separated by a space |
| Ingest.AuthorTitleExample | scripts/insert_text.py:34-44 | a name shaped like `victor-hugo_les-miserables.txt`, in any directory, parses to two capitalised two-word strings, e.g. ("Victor Hugo", "Les Miserables") |
| Ingest.DefaultAuthorExample | scripts/insert_text.py:41-43 | a name shaped like `notes.txt`, in any directory, parses to ("Inconnu", "Notes") |
| Ingest.FindSep | scripts/insert_text.py:47 | the result is the first place where `"\n\n"` starts, or -1 when there is none |
| Ingest.Split | scripts/insert_text.py:47 | `split("\n\n")` gives at least one piece, no piece contains the separator, and no piece but the last ends in `\n`, so each cut is at the leftmost separator (with `JoinSplit` this is exactly Python's split) |
| Ingest.JoinSplit | scripts/insert_text.py:47 | joining the pieces with `"\n\n"` gives back the text, so the pieces keep their order and lose nothing |
| Ingest.SplitCount | scripts/insert_text.py:47 | there is exactly one more piece than non-overlapping separators |
| Ingest.Strip | scripts/insert_text.py:47 | the result is the slice of the piece left after removing whitespace at both ends: it neither starts nor ends with whitespace, only whitespace lies outside it, and it is empty exactly when the piece is all whitespace |
| Ingest.StrippedNonEmpty | scripts/insert_text.py:47 | the comprehension never yields more chunks than it had pieces, and never an empty one |
| Ingest.StrippedOne | scripts/insert_text.py:47 | on one piece the comprehension yields its stripped form when that is non-empty, and nothing otherwise |
| Ingest.StrippedAppend | scripts/insert_text.py:47 | the comprehension works piece by piece: on concatenated lists it gives the concatenated results, in order |
| Ingest.ChunksStep | scripts/insert_text.py:46-48 | the chunks of a text are the stripped paragraph before the first blank-line separator (if non-empty) followed by the chunks of the rest; a text without separator is one paragraph |
| Ingest.SplitIntoChunks | scripts/insert_text.py:46-48 | every chunk is non-empty, has no surrounding whitespace, and contains no blank-line separator; which chunks, in which order, is `ChunksStep` |
| Ingest.StrippedAreWellFormed | scripts/insert_text.py:47 | stripping separator-free pieces and dropping the empty ones gives well-formed chunks |
| Ingest.ChunkCountBound | scripts/insert_text.py:47 | there are at most (number of separators + 1) chunks |
| Ingest.ChunksOfJoin | scripts/insert_text.py:47 | well-formed paragraphs joined by blank lines split back into exactly those paragraphs, in order |
| Ingest.SplitJoin | scripts/insert_text.py:47 | splitting a blank-line join of well-formed chunks gives the chunks back, and gives `[""]` for no chunks |
| Ingest.StrippedOfWellFormed | scripts/insert_text.py:47 | the strip-and-filter step leaves well-formed chunks as they are |
| Ingest.NoChunksIffBlank | scripts/insert_text.py:47 | a text yields no chunk exactly when it is all whitespace |
| Ingest.SomeChunk | scripts/insert_text.py:47 | a text with any non-whitespace character yields at least one chunk |
| Ingest.ChunkExample | scripts/insert_text.py:47 | `"A\n\nB\n\nC"` gives `["A", "B", "C"]` |
| Ingest.NumberedRows | scripts/insert_text.py:62-64 | one row per chunk, in order, with `numero` 1..n, the chunk's text, and the same document id |
| Ingest.NumberChunks | scripts/insert_text.py:62-64 | the `enumerate(…, start=1)` loop produces exactly the numbered rows |
| Ingest.InsertKeepsValid | scripts/insert_text.py:56-64 | a new document with the next serial id, plus chunks pointing at it, keeps every chunk pointing at an existing document |
| Ingest.Corpus.InsertDocument | scripts/insert_text.py:56-58 | the document row gets the parsed title and author, the text, and the next serial id |
| Ingest.Corpus.AppendChunks | scripts/insert_text.py:63-64 | the chunk rows are appended in order |
| Ingest.Corpus.InsertDocumentAndChunks | scripts/insert_text.py:50-66 | one document row with a fresh id and the parsed author and title, followed by its chunks numbered 1..n in paragraph order; the tables stay valid |
| Embeddings.Unprocessed | scripts/process_embeddings.py:76-78 | only chunks whose `traite` is false or NULL are selected, and there are never more than the table holds |
| Embeddings.Pending | scripts/process_embeddings.py:77 | the selection condition: `traite` is false or NULL; that a chunk is selected exactly when it holds is `Embeddings.UnprocessedExactly` |
| Embeddings.Processed | scripts/process_embeddings.py:84-90 | the loop gets through at most the whole selection |
| Embeddings.UnprocessedDistinct | scripts/process_embeddings.py:76-78 | with a primary-key id column, no chunk is selected twice, so no chunk gets two rows or two objects from one run |
| Embeddings.UnprocessedExactly | scripts/process_embeddings.py:76-78 | a chunk is selected exactly when its flag is false or NULL |
| Embeddings.NothingPending | scripts/process_embeddings.py:80-82 | nothing is selected exactly when every chunk is flagged |
| Embeddings.EmbeddingStage.InsertEmbedding | scripts/process_embeddings.py:93-94 | the row with the chunk id and vector is added to the transaction, and the insert is recorded |
| Embeddings.EmbeddingStage.CreateObject | scripts/process_embeddings.py:97-104 | the object with the chunk id, text and vector is added to the vector store at once, and the write is recorded |
| Embeddings.EmbeddingStage.UpdateTraite | scripts/process_embeddings.py:107-112 | the flag update goes to the transaction, and only once the chunk's row and object exist |
| Embeddings.EmbeddingStage.EmbedChunk | scripts/process_embeddings.py:93-112 | one loop turn: the row, then the object, then the flag, recorded in that order |
| Embeddings.EmbeddingStage.ProcessEmbeddings | scripts/process_embeddings.py:74-117 | returns early without writing when nothing is selected; on completion every selected chunk is flagged and has its row, both committed; on a provider failure no relational write survives, but the objects already created remain; the recorded writes are the per-chunk events in selection order, closed by the commit or rollback |
| Embeddings.Step | scripts/process_embeddings.py:84-112 | one successful loop turn adds one row, one object and three events for that chunk |
| Embeddings.WritesPerChunk | scripts/process_embeddings.py:90-104 | each processed chunk gets exactly one row with its id and the provider's vector, and one object with its id, text and vector; the loop stops at the first provider failure |
| Embeddings.EventsPerChunk | scripts/process_embeddings.py:93-112 | per chunk, the row insert comes first, then the vector-store object, then the flag update |
| Embeddings.FlagAfterBothWrites | scripts/process_embeddings.py:93-112 | every flag update directly follows that chunk's row insert and object creation |
| Embeddings.MarkTraite | scripts/process_embeddings.py:107-111 | the `UPDATE … WHERE id = chunk_id` of one loop turn; that the updates of a run keep every row and set `traite` on exactly the processed ids is `Embeddings.MarkAllSpec` |
| Embeddings.MarkAllSpec | scripts/process_embeddings.py:107-112 | the updates keep every row and set `traite` on exactly the rows of processed ids |
| Embeddings.CompletedRunFlagsAll | scripts/process_embeddings.py:84-117 | after a completed run every chunk is flagged, and nothing else changed |
| Embeddings.FlagsOnlyRise | scripts/process_embeddings.py:107-111 | a flag that was true stays true, and no other field changes |
| Embeddings.SecondRunIdle | scripts/process_embeddings.py:76-82 | a run right after a completed run selects nothing and returns early |
| Embeddings.FlaggedChunkUntouched | scripts/process_embeddings.py:76-78 | with unique ids, an already flagged chunk gains no embeddings row and no object |
| Embeddings.CompletedCounts | scripts/process_embeddings.py:84-118 | a run without failure writes as many rows and objects as chunks were selected, and reports that count |
| Ner.Beacon | scripts/traite_ner.py:29 | every beacon starts with `"weaviate://localhost/Chunk/"` and has an id after it |
| Ner.EntityObjects | scripts/traite_ner.py:66-67 | one entity object per row, in order |
| Ner.RelationObjects | scripts/traite_ner.py:69-70 | one relation object per row, in order |
| Ner.EntityObject | scripts/traite_ner.py:24-32 | the object `insert_entity_wv` writes; its uuid reads back as the row id, it carries the text and label, and its beacon names the chunk, as `Ner.EntityObjectRecordsRow` states |
| Ner.RelationObject | scripts/traite_ner.py:34-43 | the object `insert_relation_wv` writes; its uuid reads back as the row id, it carries subject, verb and object, and its beacon names the chunk, as `Ner.RelationObjectRecordsRow` states |
| Ner.Selected | scripts/traite_ner.py:46 | only chunks whose flag is false are selected |
| Ner.EntitiesOf | scripts/traite_ner.py:66 | the filter keeps exactly the entity rows of the chunk |
| Ner.RelationsOf | scripts/traite_ner.py:69 | the filter keeps exactly the relation rows of the chunk |
| Ner.NewEntities | scripts/traite_ner.py:57-58 | row k has id next+k, the k-th pair's text and label, and the chunk's id |
| Ner.NewRelations | scripts/traite_ner.py:60-61 | row k has id next+k, the k-th triple's subject, verb and object, and the chunk's id |
| Ner.MarkNer | scripts/traite_ner.py:73 | the update keeps the number of rows of the table (what it changes is stated by `Ner.RunChunks`) |
| Ner.WithRows | scripts/traite_ner.py:57-63 | the rows phase of one chunk; that it appends one entity row per pair and one relation row per triple for that chunk only is `Ner.RowsOfChunk` |
| Ner.WithMirrors | scripts/traite_ner.py:66-70 | the mirror phase of one chunk; that afterwards every row of the chunk has its object is `Ner.MirroredAfterMirrors` |
| Ner.WithFlag | scripts/traite_ner.py:73-74 | the flag phase of one chunk; that a run sets the flag on exactly the processed ids and changes nothing else in the chunk rows is `Ner.RunChunks` |
| Ner.NerStores.InsertEntityPg | scripts/traite_ner.py:12-16 | the row is added to the session with the next id of the sequence |
| Ner.NerStores.InsertRelationPg | scripts/traite_ner.py:18-22 | the row is added to the session with the next id of the sequence |
| Ner.NerStores.Commit | scripts/traite_ner.py:63 | after a commit nothing is pending in the session |
| Ner.NerStores.InsertEntityWv | scripts/traite_ner.py:24-32 | only a committed entity row is mirrored; one object with uuid `str(id)`, its text and label, and the chunk beacon is appended |
| Ner.NerStores.InsertRelationWv | scripts/traite_ner.py:34-43 | only a committed relation row is mirrored; one object with uuid `str(id)`, its subject, verb and object, and the chunk beacon is appended |
| Ner.NerStores.SetNerFlag | scripts/traite_ner.py:73 | the flag may only be set once every row of the chunk is mirrored |
| Ner.NerStores.AddRows | scripts/traite_ner.py:57-61 | one entity row per pair, then one relation row per triple, in extraction order, with consecutive ids |
| Ner.NerStores.StoreRows | scripts/traite_ner.py:57-63 | the rows are added and committed |
| Ner.NerStores.MirrorEntities | scripts/traite_ner.py:66-67 | every committed entity row of the chunk is mirrored, in table order |
| Ner.NerStores.MirrorRelations | scripts/traite_ner.py:69-70 | every committed relation row of the chunk is mirrored, in table order |
| Ner.NerStores.MirrorChunk | scripts/traite_ner.py:66-70 | entity objects, then relation objects, of all the chunk's rows |
| Ner.NerStores.FlagChunk | scripts/traite_ner.py:73-74 | the flag is set and committed, and only once the chunk is fully mirrored |
| Ner.NerStores.ProcessChunk | scripts/traite_ner.py:48-74 | one loop turn: rows committed, then mirrored, then the flag set and committed |
| Ner.NerStores.ExtractEntitiesRelations | scripts/traite_ner.py:45-74 | the stage is the loop over the selected chunks, ending with nothing pending |
| Ner.MirroredAfterMirrors | scripts/traite_ner.py:66-70 | after the two mirror loops every row of the chunk has its object |
| Ner.ChunkObjectsCover | scripts/traite_ner.py:66-70 | the chunk's objects cover all its entity and relation rows |
| Ner.EntitiesOfAppend | scripts/traite_ner.py:66 | filtering appended rows gives the old rows' result followed by the new rows' result |
| Ner.RelationsOfAppend | scripts/traite_ner.py:69 | filtering appended rows gives the old rows' result followed by the new rows' result |
| Ner.RowsOfChunk | scripts/traite_ner.py:51-61 | processing chunk c appends one entity row per pair and one relation row per triple, with c's id, in order and without deduplication; other chunks gain nothing |
| Ner.DerivableGrows | scripts/traite_ner.py:24-43 | adding rows only adds to the objects they determine |
| Ner.ChunkObjectsDerivable | scripts/traite_ner.py:66-70 | a chunk's objects are built only from its relational rows |
| Ner.MirroredMonotone | scripts/traite_ner.py:66-74 | a chunk stays fully mirrored while it gains no row and no object is lost |
| Ner.ChunkKeepsConsistent | scripts/traite_ner.py:57-74 | at every crash point of a chunk and after it, every object comes from a relational row, and every flagged chunk is fully mirrored |
| Ner.SelectedExactly | scripts/traite_ner.py:46 | a chunk is selected exactly when its flag is false; NULL is not selected |
| Ner.SelectedDistinct | scripts/traite_ner.py:46 | with a primary key, the selection has no id twice |
| Ner.MarkNerOthers | scripts/traite_ner.py:73 | the flag update for one id leaves every other id unflagged |
| Ner.RunKeepsConsistent | scripts/traite_ner.py:47-74 | a run over unflagged chunks with distinct ids keeps the stores consistent |
| Ner.StageKeepsConsistent | scripts/traite_ner.py:45-74 | the whole stage keeps the relational tables and the vector store consistent |
| Ner.RunChunks | scripts/traite_ner.py:73 | a run changes no chunk row except by setting the flag on the processed ids |
| Ner.RunFlags | scripts/traite_ner.py:46-73 | after a run, exactly the chunks whose flag was false are flagged, and the others (true or NULL) are untouched |
| Ner.RunLeavesOthers | scripts/traite_ner.py:47-70 | a chunk not in the selection gains no entity row and no relation row from the run, and every object the run adds points at another chunk |
| Ner.FlaggedNerChunkUntouched | scripts/traite_ner.py:46-70 | with unique ids, a chunk whose flag is true or NULL gets no entity row, no relation row and no object from a run; `Ner.RunFlags` states its flag is untouched too |
| Ner.SelectedIds | scripts/traite_ner.py:46 | with unique ids, an id is selected exactly when its own flag is false |
| Ner.NothingSelected | scripts/traite_ner.py:46 | nothing is selected exactly when no flag is false |
| Ner.SecondRunIdle | scripts/traite_ner.py:46-74 | a run right after a run selects nothing |
| Ner.ProcessedChunkMirrored | scripts/traite_ner.py:66-70 | after a chunk is processed, all its rows have objects, including rows from an earlier interrupted attempt |
| Ner.AtLeastOnce | scripts/traite_ner.py:57-74 | after a crash between the two commits the flag is still false and the chunk is selected again; re-processing doubles its extracted rows and mirrors them all |
| Ner.BeaconNamesChunk | scripts/traite_ner.py:29-40 | a beacon is the fixed prefix followed by an id that reads back as the chunk id |
| Ner.EntityObjectRecordsRow | scripts/traite_ner.py:24-32 | an entity object has uuid `str(id)`, its row's text and label, and the chunk's beacon |
| Ner.RelationObjectRecordsRow | scripts/traite_ner.py:34-43 | a relation object has uuid `str(id)`, its row's subject, verb and object, and the chunk's beacon |
| Ner.NewEntitiesFresh | scripts/traite_ner.py:12-16 | new entity ids from the sequence are above all used ids and all distinct |
| Ner.NewRelationsFresh | scripts/traite_ner.py:18-22 | new relation ids from the sequence are above all used ids and all distinct |
| Ner.ChunkKeepsIdsFresh | scripts/traite_ner.py:57-61 | processing a chunk keeps row ids below the counters and distinct |
| Ner.RunKeepsIdsFresh | scripts/traite_ner.py:47-61 | a run keeps row ids below the counters and distinct |
| Ner.UuidsIdentifyRows | scripts/traite_ner.py:32-43 | with fresh ids, two different entity rows, or two different relation rows, never share a uuid |

## Left out

- I/O is not modelled:
  - reading the file (`texte` is a parameter of `InsertDocumentAndChunks`);
  - `os.listdir` and the `insert_all_from_dir` loop;
  - `print` and `time.sleep`;
  - environment and configuration loading, and engine and client construction.
- `scripts/init.py` is not part of this model: it is schema creation and configuration.
- The HTTP request in `get_embedding` becomes the `provider` oracle. A non-2xx status or a malformed answer is `ProviderError`. Vectors are opaque.
- spaCy and textacy become the `extract` oracle. It yields `(text, label)` pairs and `(subject text, verb lemma, object text)` strings.
- The vector store's own behaviour is not modelled: rejecting a duplicate uuid, the `"Embedding"` class that the schema does not define, and failing writes. Each create is modelled as an append that succeeds.
- Entity and relation ids come from separate sequences and both become uuids by `str(id)`, so an entity row and a relation row with the same id (say 1) get the same uuid `"1"`. `Ner.UuidsIdentifyRows` states uniqueness within each table only; whether the vector store keeps uuids apart per class is outside the model.
- Relational write failures, and the rollback paths of ingestion, are not modelled. A connection that leaves its block without a commit is modelled only for the provider failure of the embedding stage.
- Unicode is not modelled. `str.title()`, `str.isspace()` and `str.strip()` are written for ASCII only.
- Ingest.Title: a non-ASCII letter counts as not cased, so outside ASCII the result differs from Python's (`les-misérables` gives `"Les MiséRables"` in the model, `"Les Misérables"` in Python); every property is meant for ASCII file names.
- The provider is a function of the chunk text, so two chunks with equal text get the same answer, and a transient failure on one call but not another is not modelled. Nothing proved depends on this.
- Queries without `ORDER BY` are taken to return rows in insertion order.
- The chunks table of ingestion has no id column in the model. Chunk ids are not used by that stage.
- The `id` column of `embeddings` (a serial primary key, scripts/process_embeddings.py:45) is not modelled: `EmbeddingRow` holds only the chunk id and the vector, since nothing in the stage reads that id.
- Serial sequences are not rolled back with a transaction. The entity stage only commits, so its counters never need to be; in the embedding stage the skipped `embeddings` ids after a rollback are not modelled, as that column is left out.
- Embeddings.EmbeddingStage.ProcessEmbeddings: the trace records one event per write and not the pause between chunks. It starts with no open transaction, as the fresh `engine.connect()` of scripts/process_embeddings.py:75 does.
- Ner.NerStores.ExtractEntitiesRelations: the stage is modelled for a session with nothing pending. The source accepts any session, and its first commit (scripts/traite_ner.py:63) would also commit whatever the caller left pending.
- Ner.Selected: its own contract states only soundness of the filter. Completeness is `Ner.SelectedExactly`.
- Ingest.SplitExtRoot: its own contract states only that the root is a prefix. Both directions of which prefix are `Ingest.SplitExtRootRemovesExtension` and `Ingest.SplitExtRootFindsExtension`.
