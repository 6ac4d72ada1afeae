/**
  `process_and_store_document`: split a document, process every chunk in order
  under its position as chunk number, and insert every record that processing
  produced. What the completion, embedding and store services answer for chunk
  number `n` is given by `Backends`; the inserts of one document run
  concurrently in the source, so only which of them succeed is modelled.
 */
module Ingest {

  import opened Options
  import Chunker
  import opened Enricher
  import opened Text

  /** The answers of the external services, by chunk number: the decoded
      completion (`None`: the call failed), the embedding (`None`: the call
      failed) and whether the store accepted the insert. */
  datatype Backends = Backends(
    completion: nat -> Option<JsonObject>,
    embedding: nat -> Option<seq<real>>,
    insertSucceeds: nat -> bool)

  /** `process_chunk(chunks[n], n, url)` under the chosen unpacking. */
  function ProcessAt(unpacking: Unpacking, url: string, chunks: seq<string>, backends: Backends, n: nat)
    : Option<ProcessedChunk>
    requires n < |chunks|
  {
    ProcessWith(unpacking, chunks[n], n, url, backends.completion(n), backends.embedding(n))
  }

  /** Chunk numbers strictly increase along `records`, so none repeats. */
  predicate Increasing(records: seq<ProcessedChunk>) {
    records == [] ||
    ((forall r :: r in records[1..] ==> records[0].chunkNumber < r.chunkNumber) && Increasing(records[1..]))
  }

  /** What `process_chunk` returned for each position of the split. */
  function Outcomes(unpacking: Unpacking, url: string, chunks: seq<string>, backends: Backends)
    : (outcomes: seq<Option<ProcessedChunk>>)
    ensures |outcomes| == |chunks|
    ensures forall n :: 0 <= n < |chunks| ==> outcomes[n] == ProcessAt(unpacking, url, chunks, backends, n)
  {
    seq(|chunks|, n requires 0 <= n < |chunks| => ProcessAt(unpacking, url, chunks, backends, n))
  }

  /** Every record among the outcomes carries its own position as chunk number. */
  predicate NumberedByPosition(outcomes: seq<Option<ProcessedChunk>>) {
    forall n :: 0 <= n < |outcomes| && outcomes[n].Some? ==> outcomes[n].value.chunkNumber == n
  }

  /** The records the loop `for i, chunk in enumerate(chunks)` queues for
      insertion from position `i` onwards: exactly the successful outcomes, in
      order, none renumbered. */
  function Queued(outcomes: seq<Option<ProcessedChunk>>, i: nat): (tasks: seq<ProcessedChunk>)
    requires i <= |outcomes| && NumberedByPosition(outcomes)
    ensures Increasing(tasks)
    ensures forall r :: r in tasks ==> i <= r.chunkNumber < |outcomes| && outcomes[r.chunkNumber] == Some(r)
    ensures forall n :: i <= n < |outcomes| && outcomes[n].Some? ==> outcomes[n].value in tasks
    decreases |outcomes| - i
  {
    if i == |outcomes| then []
    else
      var rest := Queued(outcomes, i + 1);
      match outcomes[i]
      case Some(record) =>
        assert ([record] + rest)[1..] == rest;
        [record] + rest
      case None => rest
  }

  /** The records the store holds once every queued insert has finished: those
      whose insert succeeded, in queue order. */
  function Inserted(tasks: seq<ProcessedChunk>, insertSucceeds: nat -> bool): (stored: seq<ProcessedChunk>)
    ensures forall r :: r in stored ==> r in tasks && insertSucceeds(r.chunkNumber)
    ensures forall r :: r in tasks && insertSucceeds(r.chunkNumber) ==> r in stored
    ensures Increasing(tasks) ==> Increasing(stored)
  {
    if tasks == [] then []
    else
      var rest := Inserted(tasks[1..], insertSucceeds);
      assert forall r :: r in tasks ==> r == tasks[0] || r in tasks[1..];
      if insertSucceeds(tasks[0].chunkNumber) then
        assert ([tasks[0]] + rest)[1..] == rest;
        [tasks[0]] + rest
      else rest
  }

  /** The body of `process_and_store_document` after the split: what the store
      receives for the chunks of one document, under either unpacking. Every stored record is the
      processed form of the chunk at its own position; chunk `n` is stored
      whenever its own processing and its own insert succeed, whatever happens
      to the other chunks; records are stored in chunk order, so no chunk
      number is stored twice. */
  function StoreChunks(unpacking: Unpacking, url: string, chunks: seq<string>, backends: Backends): (stored: seq<ProcessedChunk>)
    ensures forall r :: r in stored ==>
              && r.chunkNumber < |chunks|
              && ProcessAt(unpacking, url, chunks, backends, r.chunkNumber) == Some(r)
              && backends.insertSucceeds(r.chunkNumber)
              && r.url == url
              && r.content == chunks[r.chunkNumber]
              && MetadataMirrorsIdentity(r)
    ensures forall n :: 0 <= n < |chunks| && ProcessAt(unpacking, url, chunks, backends, n).Some?
                          && backends.insertSucceeds(n) ==>
              ProcessAt(unpacking, url, chunks, backends, n).value in stored
    ensures Increasing(stored)
  {
    var outcomes := Outcomes(unpacking, url, chunks, backends);
    Inserted(Queued(outcomes, 0), backends.insertSucceeds)
  }

  /** `process_and_store_document(url, markdown)` under the chosen reading of
      the unpacking in `process_chunk` (`AsWritten` is the code as it stands).
      The document is split with the default chunk size, so every stored
      content is trimmed and at most 5000 characters long; an empty document
      stores nothing, and a document that fits in one chunk stores at most one
      record, number 0, holding the stripped document. */
  function IngestDocument(unpacking: Unpacking, url: string, markdown: string, backends: Backends)
    : (stored: seq<ProcessedChunk>)
    ensures forall r :: r in stored ==>
              r.url == url && IsTrimmed(r.content) && |r.content| <= Chunker.DefaultChunkSize
    ensures Increasing(stored)
    ensures |markdown| == 0 ==> stored == []
    ensures 0 < |markdown| <= Chunker.DefaultChunkSize ==>
              |stored| <= 1 && forall r :: r in stored ==> r.chunkNumber == 0 && r.content == Strip(markdown)
  {
    var stored := StoreChunks(unpacking, url, Chunker.ChunkText(markdown, Chunker.DefaultChunkSize), backends);
    assert 2 <= |stored| ==> stored[1] in stored[1..];
    stored
  }

  /** Failure isolation: when two runs differ only in whether the insert of
      chunk `m` succeeds, every other chunk is stored in one run exactly when it
      is stored in the other. */
  lemma InsertFailureIsolated(unpacking: Unpacking, url: string, chunks: seq<string>,
                              b1: Backends, b2: Backends, m: nat)
    requires forall n :: b1.completion(n) == b2.completion(n) && b1.embedding(n) == b2.embedding(n)
    requires forall n :: n != m ==> b1.insertSucceeds(n) == b2.insertSucceeds(n)
    ensures forall r: ProcessedChunk :: r.chunkNumber != m ==>
              (r in StoreChunks(unpacking, url, chunks, b1) <==> r in StoreChunks(unpacking, url, chunks, b2))
  {
    assert forall n :: 0 <= n < |chunks| ==>
      ProcessAt(unpacking, url, chunks, b1, n) == ProcessAt(unpacking, url, chunks, b2, n);
  }

  /** The discrepancy at document level: as written, a chunk whose completion
      answered `{"title": t, "summary": s}` and whose insert succeeds is stored
      with the title "title" and the summary "summary", whatever `t` and `s`. */
  lemma AsWrittenDocumentStoresKeyNames(url: string, chunks: seq<string>, backends: Backends,
                                        n: nat, t: string, s: string)
    requires n < |chunks|
    requires backends.completion(n) == Some([("title", t), ("summary", s)])
    requires backends.insertSucceeds(n)
    ensures exists r :: r in StoreChunks(AsWritten, url, chunks, backends)
                        && r.chunkNumber == n && r.content == chunks[n]
                        && r.title == "title" && r.summary == "summary"
  {
    AsWrittenStoresKeyNames(chunks[n], n, url, t, s, backends.embedding(n));
    var r := ProcessAt(AsWritten, url, chunks, backends, n).value;
    assert r in StoreChunks(AsWritten, url, chunks, backends);
  }

}
