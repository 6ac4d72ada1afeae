# Documentation-crawler ingestion core, modelled in Dafny

The crawler fetches documentation pages and converts each one to markdown. It
then splits the markdown into chunks with `chunk_text`, enriches every chunk
with a title, a summary and an embedding (`process_chunk`), and inserts the
records into a table keyed by URL and chunk number
(`process_and_store_document`). This project models the splitter and the
per-document bookkeeping, and proves their properties:

- `Text` holds the string primitives the splitter uses. These are Python's
  `str.strip()`, with its exact set of whitespace code points, `str.rfind` and
  the `in` substring test.
- `Chunker` models `chunk_text`. `ChunkLoop` follows the `while` loop one
  iteration per call. `BreakEnd` is the fence, then paragraph, then sentence
  cascade. `WindowsFrom` is the sequence of raw windows `text[start:end]` the
  loop cuts.
- `Enricher` models `get_title_and_summary`, `get_embedding` and the
  `ProcessedChunk` that `process_chunk` builds. The completion and embedding
  services are parameters: an `Option` answer, where `None` stands for every
  exception the source catches.
- `Ingest` models `process_and_store_document`. What the services and the
  store answer for chunk number `n` is an oracle (`Backends`).
- `Options` is the `Option` datatype.

The 30% threshold `pos > chunk_size * 0.3` is the exact integer comparison
`10 * pos > 3 * chunk_size`. Chunk sizes are natural numbers. Size 0 is
modelled: the loop then steps one character at a time and emits nothing.

Behaviours of the code a reader may not expect, which the model follows:

- The last remainder is appended even when it strips to the empty string.
- A window holding a paragraph break that lies too early is cut at the full
  size. The sentence rule is not tried.
- Chunk numbers are positions in the split. A chunk that `process_chunk` drops
  leaves a gap.
- `title, summary = <dict>` binds the dictionary's keys. See Findings. The
  per-chunk step `Enricher.ProcessWith` and the document fold in `Ingest` take
  the reading as a parameter: `AsWritten` is the code as it stands, and
  `Corrected` reads the two values.

## Model

| member | source | states |
|---|---|---|
| Text.Strip | crawl_pydantic_ai_docs.py:74 | the result has no leading or trailing whitespace; it is a contiguous slice of the input with only whitespace on either side; it is empty exactly when the input is all whitespace |
| Text.StripUnique | crawl_pydantic_ai_docs.py:74 | any split of a string into whitespace, a trimmed middle and whitespace has that middle as its strip, so the properties above determine `strip()` completely |
| Text.StripIdempotent | crawl_pydantic_ai_docs.py:74 | stripping a stripped chunk changes nothing |
| Text.RFind | crawl_pydantic_ai_docs.py:55 | -1 exactly when the pattern does not occur (the `in` test); otherwise an occurrence with no later occurrence |
| Chunker.BreakEnd | crawl_pydantic_ai_docs.py:53-71 | with a positive chunk size the cut lies strictly after `start`, at most `chunk_size` after it, and more than 30% of `chunk_size` after it |
| Chunker.QualifiesAtLast | crawl_pydantic_ai_docs.py:55-70 | testing only the last occurrence against the 30% threshold accepts exactly when some occurrence in the window lies past 30% |
| Chunker.FenceCut | crawl_pydantic_ai_docs.py:53-57 | if any fence in the window lies past 30%, the cut is just before the window's last fence, whatever paragraph or sentence breaks exist, and a fence starts at the cut |
| Chunker.ParagraphCut | crawl_pydantic_ai_docs.py:59-64 | with no qualifying fence and some "\n\n" in the window, the cut is before the last "\n\n" if one lies past 30%; otherwise it is the full `chunk_size`, and the sentence rule is not consulted |
| Chunker.SentenceCut | crawl_pydantic_ai_docs.py:66-71 | with no qualifying fence and no "\n\n" at all, the cut is one past the period of the last ". " if one lies past 30%, so the period stays in the window and a space follows the cut; otherwise it is the full `chunk_size` |
| Chunker.NextStart | crawl_pydantic_ai_docs.py:78-79 | `max(start + 1, end)` always moves the cursor forward, which makes the loop terminate; with a positive chunk size it equals the cut, so no character is skipped |
| Chunker.ChunkLoop | crawl_pydantic_ai_docs.py:44-79 | from any cursor: nothing once the cursor is at the end or the size is 0; otherwise at least one chunk; every chunk trimmed and at most `chunk_size` long; every chunk but the last non-empty |
| Chunker.ChunkText | crawl_pydantic_ai_docs.py:38-81 | empty text gives `[]`; text no longer than `chunk_size` gives exactly `[text.strip()]`; otherwise the chunk properties above, with a final chunk always present |
| Chunker.WindowsFrom | crawl_pydantic_ai_docs.py:44-79 | the raw windows concatenate to exactly the rest of the text, in order; each is non-empty and at most `chunk_size` long; each but the last is longer than 30% of `chunk_size` |
| Chunker.ChunksAreStrippedWindows | crawl_pydantic_ai_docs.py:44-79 | the emitted chunks are the stripped windows in order, with the empty ones among all but the last dropped; the last window's strip is always emitted |
| Chunker.WindowsTileText | crawl_pydantic_ai_docs.py:38-81 | for the whole text: the windows reconstruct the text and the chunks are their strips |
| Chunker.WindowCountBounds | crawl_pydantic_ai_docs.py:46-71 | a text of length L splits into n windows with L <= n * chunk_size and 3 * chunk_size * (n - 1) < 10 * L |
| Chunker.ShortBlankTextYieldsEmptyChunk | crawl_pydantic_ai_docs.py:48-51 | whitespace-only text that fits in one window yields `[""]` |
| Enricher.TitleAndSummary | crawl_pydantic_ai_docs.py:91-103 | a failed completion call yields an object whose "title" and "summary" are the two error strings; a successful call yields the decoded object |
| Enricher.Embedding | crawl_pydantic_ai_docs.py:105-115 | a failed embedding call yields a vector of 1536 zeros; a successful call yields the service's vector |
| Enricher.MakeRecord | crawl_pydantic_ai_docs.py:123-136 | the record carries the chunk as content, its URL and number, and metadata with source "python_uv_docs", the same URL and the same number |
| Enricher.UnpackAsWritten | crawl_pydantic_ai_docs.py:120 | unpacking a dictionary succeeds exactly when it has two entries, and then binds its two keys |
| Enricher.ProcessChunkAsWritten | crawl_pydantic_ai_docs.py:117-139 | as written, a chunk is dropped exactly when the title/summary object does not have two entries; a kept record has the chunk as content, its URL and number and mirroring metadata; its title and summary are the object's first and second KEYS; a failed embedding gives 1536 zeros, a successful one the service's vector |
| Enricher.AsWrittenStoresKeyNames | crawl_pydantic_ai_docs.py:120 | as written, an answer {"title": t, "summary": s} stores title "title" and summary "summary" for every t and s; a failed completion also stores title "title" and summary "summary", not the two error strings |
| Enricher.UnpackTitleSummary | crawl_pydantic_ai_docs.py:120 | corrected: succeeds exactly when both keys are present, and yields the values stored under "title" and "summary" |
| Enricher.LookupFindsEntry | crawl_pydantic_ai_docs.py:120 | in a decoded object with distinct keys, `d[key]` is `value` exactly when the entry (key, value) is present |
| Enricher.UnpackIgnoresKeyOrder | crawl_pydantic_ai_docs.py:120 | corrected unpacking of any two objects holding the same entries, in whatever order, gives the same result |
| Enricher.ProcessChunk | crawl_pydantic_ai_docs.py:117-139 | drops the chunk exactly when the completion answered an object lacking a title or summary key; a kept record has the chunk as content, its URL and number, metadata mirroring them, the answered title and summary, and the service's embedding; a failed completion keeps the chunk with the two error strings; a failed embedding gives 1536 zeros |
| Enricher.ProcessWith | crawl_pydantic_ai_docs.py:117-139 | under either reading of the unpacking, a kept record has the chunk as content, its URL and number and mirroring metadata, and a failed completion never drops the chunk; as written, the chunk is dropped exactly when the object does not have two entries; corrected, exactly when it lacks a title or summary key |
| Ingest.Queued | crawl_pydantic_ai_docs.py:174-179 | the queued records are exactly the successful outcomes of `process_chunk`, each found at the position equal to its chunk number; chunk numbers strictly increase, and positions whose processing failed leave gaps that are not renumbered |
| Ingest.Inserted | crawl_pydantic_ai_docs.py:149-168 | the store holds exactly the queued records whose own insert succeeded; increasing chunk numbers stay increasing |
| Ingest.StoreChunks | crawl_pydantic_ai_docs.py:174-182 | under either unpacking (the code as written or the corrected one), every stored record is the processed form of the chunk at its own position, with that chunk as content, the document's URL, a successful insert and mirroring metadata; every chunk whose processing and insert succeed is stored; numbers strictly increase, so none is stored twice |
| Ingest.IngestDocument | crawl_pydantic_ai_docs.py:170-185 | under either unpacking, the document is split with the default size 5000, so every stored content is trimmed and at most 5000 characters long and carries the document's URL; numbers strictly increase; an empty document stores nothing; a document of at most 5000 characters stores at most one record, number 0, holding the stripped document |
| Ingest.InsertFailureIsolated | crawl_pydantic_ai_docs.py:166-182 | when two runs differ only in whether the insert of chunk m succeeds, every record with another number is stored in one run exactly when it is stored in the other |
| Ingest.AsWrittenDocumentStoresKeyNames | crawl_pydantic_ai_docs.py:120-182 | as written, a chunk whose completion answered {"title": t, "summary": s} and whose insert succeeds is stored with title "title" and summary "summary", whatever t and s are |

## Left out

- `crawl_parallel` (crawl_pydantic_ai_docs.py:187-224) is not modelled. It covers browser and page lifecycle, HTML-to-markdown conversion, and the `asyncio.Semaphore` concurrency ceiling. The ceiling only matters when tasks run concurrently, and a sequential model cannot show it.
- `get_python_uv_urls`, `get_table_name` and `main` are not modelled: a network fetch, command-line handling and process exit.
- auth.py is not part of this model. It wraps the Streamlit user interface and the Supabase authentication calls.
- The OpenAI and Supabase calls are oracles. The first 1000 characters sent to the completion service only shape the request, so they are not modelled.
- Logging with `print` is not modelled.
- The `timestamp` and `created_at` fields are not modelled, because they read the wall clock.
- The store's table name is not modelled.
- The completion answer is modelled as a JSON object with string values and distinct keys. Non-object JSON, non-string values and duplicate keys are not modelled.
- The outer `try` of `process_and_store_document` is not modelled. Every call inside it catches its own exceptions, so it never fires.
- The inserts of one document run together under `asyncio.gather`. Only which inserts succeed is modelled, not their interleaving.
- Chunker.ChunkText: negative chunk sizes are not modelled. Python would slice with negative indices there.
- Chunker.BreakEnd: the threshold is the exact comparison `10 * pos > 3 * chunk_size`, not the floating-point product `chunk_size * 0.3`. The two could differ only when 3 * chunk_size / 10 is a whole number that a break lands on exactly.
- Text.Strip: characters are Unicode code points. No normalisation is modelled.
- Enricher.ProcessChunk: it models the corrected unpacking, as the next section describes. The code as written is `Enricher.ProcessChunkAsWritten`. The document fold `Ingest.StoreChunks` takes the reading as a parameter and covers both.

## Findings

| source | as written | input that shows it | evidently intended | confidence | as-written member | corrected member |
|---|---|---|---|---|---|---|
| crawl_pydantic_ai_docs.py:120 | `title, summary = await get_title_and_summary(chunk, url)` unpacks the returned dict, which iterates its keys. It binds title = "title" and summary = "summary". A dict without exactly two keys raises `ValueError`, and the chunk is dropped. | completion answers {"title": "Install uv", "summary": "How to install"}; the stored record has title "title" and summary "summary". A failed completion likewise stores "title", not "Error processing title". | `title, summary = d["title"], d["summary"]`, reading the values | high (Python unpacking semantics); not executed | Enricher.ProcessChunkAsWritten | Enricher.ProcessChunk |
