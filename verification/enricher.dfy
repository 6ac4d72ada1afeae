/**
  Per-chunk enrichment: `get_title_and_summary`, `get_embedding` and the record
  `process_chunk` builds. The completion and embedding services are not modelled;
  their answers arrive as `Option` values, `None` standing for every exception
  the source catches (network, missing key, malformed JSON).
 */
module Enricher {

  import opened Options

  /** The fixed `metadata["source"]` tag of every record. */
  const SourceTag := "python_uv_docs"
  /** Length of the embedding vectors (`text-embedding-3-small`). */
  const EmbeddingDimension: nat := 1536
  const TitlePlaceholder := "Error processing title"
  const SummaryPlaceholder := "Error processing summary"

  /** No key occurs twice. */
  predicate DistinctKeys(entries: seq<(string, string)>) {
    forall i, j | 0 <= i < j < |entries| :: entries[i].0 != entries[j].0
  }

  /** A decoded JSON object with string values: its entries in document order,
      one per key, as `json.loads` builds the dictionary. */
  type JsonObject = entries: seq<(string, string)> | DistinctKeys(entries) witness []

  /** The object `get_title_and_summary` returns when the completion call fails. */
  const PlaceholderObject: JsonObject := [("title", TitlePlaceholder), ("summary", SummaryPlaceholder)]

  /** `d[key]`, or `None` when the key is absent. */
  function Lookup(d: seq<(string, string)>, key: string): (r: Option<string>)
    ensures r.None? <==> forall i :: 0 <= i < |d| ==> d[i].0 != key
    ensures r.Some? ==> exists i :: 0 <= i < |d| && d[i] == (key, r.value)
  {
    if d == [] then None
    else if d[0].0 == key then Some(d[0].1)
    else
      var r := Lookup(d[1..], key);
      assert forall i :: 1 <= i < |d| ==> d[i] == d[1..][i - 1];
      r
  }

  /** `get_title_and_summary`: the decoded completion, or the placeholder object
      when the call fails. */
  function TitleAndSummary(completion: Option<JsonObject>): (d: JsonObject)
    ensures completion.Some? ==> d == completion.value
    ensures completion.None? ==>
              Lookup(d, "title") == Some(TitlePlaceholder) && Lookup(d, "summary") == Some(SummaryPlaceholder)
  {
    match completion
    case Some(obj) => obj
    case None => PlaceholderObject
  }

  /** `get_embedding`: the service's vector, or 1536 zeros when the call fails. */
  function Embedding(response: Option<seq<real>>): (v: seq<real>)
    ensures response.Some? ==> v == response.value
    ensures response.None? ==> |v| == EmbeddingDimension && forall i :: 0 <= i < |v| ==> v[i] == 0.0
  {
    match response
    case Some(vector) => vector
    case None => seq(EmbeddingDimension, _ => 0.0)
  }

  /** The `metadata` dictionary of a record; its creation timestamp is not modelled. */
  datatype Metadata = Metadata(source: string, url: string, chunkNumber: nat)

  /** `ProcessedChunk`. */
  datatype ProcessedChunk = ProcessedChunk(
    url: string,
    chunkNumber: nat,
    title: string,
    summary: string,
    content: string,
    metadata: Metadata,
    embedding: seq<real>)

  /** A record's metadata mirrors its identity and carries the fixed source tag. */
  predicate MetadataMirrorsIdentity(pc: ProcessedChunk) {
    && pc.metadata.source == SourceTag
    && pc.metadata.url == pc.url
    && pc.metadata.chunkNumber == pc.chunkNumber
  }

  /** The record `process_chunk` builds once it has a title and a summary. */
  function MakeRecord(chunk: string, chunkNumber: nat, url: string, title: string, summary: string,
                      embedding: Option<seq<real>>): (pc: ProcessedChunk)
    ensures MetadataMirrorsIdentity(pc)
    ensures pc.url == url && pc.chunkNumber == chunkNumber && pc.content == chunk
    ensures pc.title == title && pc.summary == summary
  {
    ProcessedChunk(url, chunkNumber, title, summary, chunk,
                   Metadata(SourceTag, url, chunkNumber), Embedding(embedding))
  }

  // ---------------------------------------------------------------------------
  // The destructuring `title, summary = <dict>` of `process_chunk`, as written:
  // unpacking a dictionary iterates over its KEYS, so it succeeds exactly when
  // the dictionary has two entries, and then binds the two key names.

  /** `title, summary = d` as the source writes it; `None` is the `ValueError`. */
  function UnpackAsWritten(d: JsonObject): (r: Option<(string, string)>)
    ensures r.Some? <==> |d| == 2
    ensures r.Some? ==> r.value.0 == d[0].0 && r.value.1 == d[1].0
  {
    if |d| == 2 then Some((d[0].0, d[1].0)) else None
  }

  /** `process_chunk` as written. */
  function ProcessChunkAsWritten(chunk: string, chunkNumber: nat, url: string,
                                 completion: Option<JsonObject>, embedding: Option<seq<real>>)
    : (r: Option<ProcessedChunk>)
    ensures r.Some? <==> |TitleAndSummary(completion)| == 2
    ensures r.Some? ==> && MetadataMirrorsIdentity(r.value)
                        && r.value.url == url && r.value.chunkNumber == chunkNumber
                        && r.value.content == chunk
    ensures r.Some? ==> && r.value.title == TitleAndSummary(completion)[0].0
                        && r.value.summary == TitleAndSummary(completion)[1].0
    ensures r.Some? && embedding.None? ==>
              |r.value.embedding| == EmbeddingDimension
              && forall i :: 0 <= i < |r.value.embedding| ==> r.value.embedding[i] == 0.0
    ensures r.Some? && embedding.Some? ==> r.value.embedding == embedding.value
  {
    match UnpackAsWritten(TitleAndSummary(completion))
    case Some((title, summary)) => Some(MakeRecord(chunk, chunkNumber, url, title, summary, embedding))
    case None => None
  }

  /** The discrepancy: as written, every record whose completion answered
      `{"title": t, "summary": s}` stores the title "title" and the summary
      "summary", whatever `t` and `s` are; a failed completion stores the same
      two words instead of the placeholder strings. */
  lemma AsWrittenStoresKeyNames(chunk: string, chunkNumber: nat, url: string, t: string, s: string,
                                embedding: Option<seq<real>>)
    ensures var answered := ProcessChunkAsWritten(chunk, chunkNumber, url,
                                                   Some([("title", t), ("summary", s)]), embedding);
            answered.Some? && answered.value.title == "title" && answered.value.summary == "summary"
    ensures var failed := ProcessChunkAsWritten(chunk, chunkNumber, url, None, embedding);
            && failed.Some?
            && failed.value.title == "title" && failed.value.title != TitlePlaceholder
            && failed.value.summary == "summary" && failed.value.summary != SummaryPlaceholder
  {
    var obj: JsonObject := [("title", t), ("summary", s)];
    assert TitleAndSummary(Some(obj)) == obj;
  }

  // ---------------------------------------------------------------------------
  // The evidently intended reading: look the two values up by key; a missing
  // key raises inside the `try` and the chunk is dropped.

  /** `title, summary = d["title"], d["summary"]`; `None` is the `KeyError`. */
  function UnpackTitleSummary(d: JsonObject): (r: Option<(string, string)>)
    ensures r.Some? <==> (exists i :: 0 <= i < |d| && d[i].0 == "title")
                         && (exists j :: 0 <= j < |d| && d[j].0 == "summary")
    ensures r.Some? ==> (exists i :: 0 <= i < |d| && d[i] == ("title", r.value.0))
                        && (exists j :: 0 <= j < |d| && d[j] == ("summary", r.value.1))
  {
    match (Lookup(d, "title"), Lookup(d, "summary"))
    case (Some(title), Some(summary)) => Some((title, summary))
    case _ => None
  }

  /** In an object with distinct keys, `d[key]` is `value` exactly when the
      entry `(key, value)` is present. */
  lemma LookupFindsEntry(d: JsonObject, key: string, value: string)
    ensures Lookup(d, key) == Some(value) <==> (key, value) in d
  {
    if (key, value) in d {
      var j :| 0 <= j < |d| && d[j] == (key, value);
      var r := Lookup(d, key);
      assert d[j].0 == key;
      assert r.Some?;
      var i :| 0 <= i < |d| && d[i] == (key, r.value);
      assert i == j;
    }
  }

  /** Corrected unpacking depends only on which entries the object holds, not
      on their order: two objects with the same entries unpack alike. */
  lemma UnpackIgnoresKeyOrder(d: JsonObject, e: JsonObject)
    requires forall p :: p in d <==> p in e
    ensures UnpackTitleSummary(d) == UnpackTitleSummary(e)
  {
    SameLookup(d, e, "title");
    SameLookup(d, e, "summary");
  }

  /** Two objects with the same entries answer every lookup alike. */
  lemma SameLookup(d: JsonObject, e: JsonObject, key: string)
    requires forall p :: p in d <==> p in e
    ensures Lookup(d, key) == Lookup(e, key)
  {
    match Lookup(d, key)
    case Some(v) =>
      LookupFindsEntry(d, key, v);
      LookupFindsEntry(e, key, v);
    case None =>
      match Lookup(e, key)
      case Some(v) =>
        LookupFindsEntry(d, key, v);
        LookupFindsEntry(e, key, v);
      case None =>
  }

  /** `process_chunk` with the corrected unpacking: `None` exactly when the
      completion answered an object lacking a title or a summary key; otherwise
      a record for this chunk whose metadata mirrors its identity. A failed
      completion call never drops the chunk: it yields the placeholder strings,
      and a failed embedding call yields 1536 zeros. */
  function ProcessChunk(chunk: string, chunkNumber: nat, url: string,
                        completion: Option<JsonObject>, embedding: Option<seq<real>>)
    : (r: Option<ProcessedChunk>)
    ensures r.None? <==> completion.Some? && (Lookup(completion.value, "title").None?
                                              || Lookup(completion.value, "summary").None?)
    ensures r.Some? ==> && MetadataMirrorsIdentity(r.value)
                        && r.value.url == url && r.value.chunkNumber == chunkNumber
                        && r.value.content == chunk
    ensures r.Some? && completion.Some? ==>
              && Lookup(completion.value, "title") == Some(r.value.title)
              && Lookup(completion.value, "summary") == Some(r.value.summary)
    ensures completion.None? ==>
              r.Some? && r.value.title == TitlePlaceholder && r.value.summary == SummaryPlaceholder
    ensures r.Some? && embedding.None? ==>
              |r.value.embedding| == EmbeddingDimension
              && forall i :: 0 <= i < |r.value.embedding| ==> r.value.embedding[i] == 0.0
    ensures r.Some? && embedding.Some? ==> r.value.embedding == embedding.value
  {
    match UnpackTitleSummary(TitleAndSummary(completion))
    case Some((title, summary)) => Some(MakeRecord(chunk, chunkNumber, url, title, summary, embedding))
    case None => None
  }

  // ---------------------------------------------------------------------------
  // Both readings of `process_chunk`, selectable by the document fold.

  /** Which reading of `title, summary = <dict>` processing uses. */
  datatype Unpacking = AsWritten | Corrected

  /** `process_chunk` under the chosen reading. Under either one, a kept record
      belongs to this chunk and its metadata mirrors its identity, and a failed
      completion call never drops the chunk. */
  function ProcessWith(unpacking: Unpacking, chunk: string, chunkNumber: nat, url: string,
                       completion: Option<JsonObject>, embedding: Option<seq<real>>)
    : (r: Option<ProcessedChunk>)
    ensures r.Some? ==> && MetadataMirrorsIdentity(r.value)
                        && r.value.url == url && r.value.chunkNumber == chunkNumber
                        && r.value.content == chunk
    ensures completion.None? ==> r.Some?
    ensures unpacking.AsWritten? ==> (r.Some? <==> |TitleAndSummary(completion)| == 2)
    ensures unpacking.Corrected? ==>
              (r.None? <==> completion.Some? && (Lookup(completion.value, "title").None?
                                                 || Lookup(completion.value, "summary").None?))
  {
    match unpacking
    case AsWritten => ProcessChunkAsWritten(chunk, chunkNumber, url, completion, embedding)
    case Corrected => ProcessChunk(chunk, chunkNumber, url, completion, embedding)
  }

}
