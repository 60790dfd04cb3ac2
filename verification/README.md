# Verified model of a PDF question-answering service

The service lets a user upload a PDF, indexes it for similarity search, and
answers questions about it with a language model that sees only the
retrieved excerpts. Almost all of the work is done by external libraries:
PDF loading, chunking, embeddings, the vector index and the language model.
This project models the service's own logic on top of them:

- **Answer post-processing** (`main.py`). `retrieve_docs` turns search hits
  into records that hold only content, page and section. `question_pdf`
  joins the contents with `"\n\n"` into the context and asks the model. It
  removes `<think>…</think>` blocks from the reply in one non-greedy,
  newline-spanning pass, then strips surrounding whitespace. Last, it builds
  one source reference per record, with the content cut to 200 characters
  plus `"..."`.
- **The request handlers and the index cache** (`server.py`). A single map
  `db_cache` from file name to index is written by `upload`, read by `ask`
  and ignored by `health`. Each handler decides a status code and a JSON
  body.

Files:

- `wrappers.dfy`: `Option` and `Result` (`Err` carries the exception's message).
- `values.dfy`: the dynamically typed values handlers see, and Python truthiness.
- `text.dfy`: substring search, `str.strip()`, `str.join`.
- `think.dfy`: the `re.sub` that removes reasoning blocks.
- `pipeline.dfy`: `retrieve_docs` and `question_pdf`.
- `server.dfy`: the class `Service` with the cache and the three handlers.

The foreign calls are parameters that may fail:

- `upload_pdf` becomes a `Saver`.
- `create_vector_store` becomes an `Indexer`.
- `similarity_search` becomes a `Searcher`.
- The prompt-and-model chain becomes an `Llm`.

Three places where the code does less than its comments or names suggest.
The model follows the code:

- The comment at main.py:104 speaks of removing any `<think>` blocks, and
  the prompt tells the model not to include any (main.py:32). The code makes
  a single pass, so text such as `"<thi<think></think>nk>"` cleans to
  `"<think>"`. `Pipeline.CleanMayKeepTag` proves this, and
  `Pipeline.CleanNotIdempotent` shows that a second pass can remove more.
- The comment at main.py:107 says sources include the page. main.py:113
  tests the page's truthiness, so page `0` (the first page, since pages are
  numbered from 0) is dropped from the sources.
- `upload_pdf` names the stored file after `file.name` (main.py:50), while
  `upload` keys the cache by `file.filename` (server.py:20). File storage is
  a parameter here, so only the cache key is modelled.

## Model

| member | source | states |
|---|---|---|
| `Values.Truthy` | main.py:111-113 | A value is falsy exactly when it is None, False, 0 or `""`; this is the test behind `if d["section"]:`, `if d["page"]:` and `if not filename or not question` (server.py:30). |
| `Values.Get` | main.py:84-86 | `d.get(key, default)` gives the stored value when the key is present and the default otherwise, and never anything else; also used by `ask` at server.py:28-29. |
| `Text.Find` | main.py:105 | The reported index is the first occurrence of the pattern at or after the start position; `None` means there is none. This is what makes `.*?` take the nearest closing tag. |
| `Text.TrimStart` | main.py:105 | The result is a suffix of the input, preceded only by whitespace characters (those of `str.isspace`), and does not itself start with whitespace. |
| `Text.TrimEnd` | main.py:105 | The result is a prefix of the input, followed only by whitespace, and does not end with whitespace. |
| `Text.StripWhitespace` | main.py:105 | `strip()` gives the infix of the input whose surroundings are all whitespace, and which neither starts nor ends with whitespace. |
| `Text.Join` | main.py:99 | `str.join` of no pieces is `""`; otherwise the result starts with the first piece. `Text.JoinLength`, `Text.JoinPiece` and `Text.JoinSeparator` place every piece and separator. |
| `Text.JoinLength` | main.py:99 | A join is as long as its pieces plus one separator between each two; it is empty for no pieces. |
| `Text.JoinPiece` | main.py:99 | Piece i stands unchanged at its offset in the joined string, so pieces keep their order. |
| `Text.JoinSeparator` | main.py:99 | Exactly one separator stands between piece i and piece i+1. |
| `Think.RemoveThinkBlocks` | main.py:105 | The single left-to-right substitution pass never lengthens the text. |
| `Think.RemoveWithoutOpen` | main.py:105 | Text with no `<think>` is returned unchanged. |
| `Think.RemoveWithoutClose` | main.py:105 | Text with no `</think>` is returned unchanged, so an opening tag that is never closed is kept. |
| `Think.RemoveKeepsPrefix` | main.py:105 | Text before the first `<think>` is kept verbatim, and removal continues on the rest. |
| `Think.RemoveLeadingBlock` | main.py:105 | A block that starts the text and ends at the first `</think>` after its opening tag is deleted whole, newlines included. |
| `Think.RemoveSpan` | main.py:105 | Leftmost, shortest blocks are deleted one after another: for `a + <think> + m + </think> + b`, with no opening tag starting in `a` and no closing tag starting in `m`, the result is `a` followed by the result for `b`. |
| `Think.NestedOpenSurvives` | main.py:105 | One pass over `"<thi<think></think>nk>"` leaves `"<think>"`: removing an inner block can bring a tag together, and that tag stays. |
| `Think.OnePassLeavesBlock` | main.py:105 | One pass over `"<thi<think></think>nk></think>"` leaves the complete block `"<think></think>"`. |
| `Think.EmptyBlockRemoved` | main.py:105 | `"<think></think>"` is removed entirely. |
| `Think.RemoveNotIdempotent` | main.py:105 | Applying the pass to its own output can change it again. |
| `Pipeline.Enriched` | main.py:79-91 | A record has exactly the keys content, page and section. Content is the hit's text. Page and section are the metadata's values when metadata exists, is a dictionary and has the key; otherwise they are `""`. No other metadata, such as the file path, is copied. |
| `Pipeline.RetrieveDocs` | main.py:73-92 | A failing search propagates its error. Otherwise there is one enriched record per hit, in search order. |
| `Pipeline.EnrichAll` | main.py:77-92 | The records built from hits are one per hit, in order, and all readable by `question_pdf`. |
| `Pipeline.Contents` | main.py:99 | The contents of the records, one per record, in order. |
| `Pipeline.Context` | main.py:99 | The context is empty without records, is the record's content when there is one, and otherwise starts with the first record's content. |
| `Pipeline.ContextLength` | main.py:99 | The context's length is the sum of the content lengths plus 2·(n−1) for n ≥ 1, and 0 for no records. |
| `Pipeline.ContextPiece` | main.py:99 | The content of record i appears intact at its offset in the context, so contents appear in retrieval order. |
| `Pipeline.CleanAnswer` | main.py:105 | The cleaned answer is never longer than the raw answer, and it neither starts nor ends with whitespace. |
| `Pipeline.CleanWithoutOpen` | main.py:105 | When the raw answer contains no `<think>`, the cleaned answer is the raw answer with surrounding whitespace stripped. |
| `Pipeline.CleanMayKeepTag` | main.py:105 | Cleaning `"<thi<think></think>nk>"` gives `"<think>"`, which still contains an opening tag. |
| `Pipeline.CleanNotIdempotent` | main.py:105 | Cleaning an already cleaned answer can change it. |
| `Pipeline.Truncate` | main.py:115 | The result has at most 203 characters. Content of at most 200 characters is kept as it is. Longer content becomes its first 200 characters followed by `"..."`. |
| `Pipeline.SourceRef` | main.py:109-115 | Keys are a subset of section, page and content. `section` is present exactly when the section is truthy, and `page` exactly when the page is truthy, so page 0 is dropped. Present values are the record's own. `content` is always present and holds the truncated content. |
| `Pipeline.BuildSources` | main.py:108-116 | The dictionaries filled key by key in the loop are one source reference per record, in the same order. |
| `Pipeline.QuestionPdf` | main.py:95-117 | The model is asked with the joined context, and a model failure propagates. Otherwise the answer is the cleaned reply and the sources are one reference per record, in order. |
| `Server.ReplayLatest` | server.py:20 | After a sequence of successful uploads, a file name maps to the index of its last upload. A re-upload overwrites the earlier index. |
| `Server.ReplayKeys` | server.py:8-21 | The cache's keys are exactly the file names of the successful uploads. |
| `Server.Service.constructor` | server.py:8 | The cache starts empty, with no uploads recorded. |
| `Server.Service.Upload` | server.py:10-23 | No `file` field gives 400 "No file uploaded". An empty file name gives 400 "No selected file". A failed save or index gives 500 with the error. Success gives 200 with the file name, sets `cache[filename]` to the new index and leaves every other entry as it was. Any non-200 leaves the cache unchanged. The invariant cache = replay of the successful uploads is kept. |
| `Server.Service.Ask` | server.py:25-40 | A missing or falsy `filename` or `question` gives 400 before the cache is consulted. A file name that is not a cached string key gives 400, never 500. A request with both fields truthy and a cached file name always reaches the search and the model: a failing search or model gives 500 with the error, and otherwise it gives 200 with the cleaned answer and one source per hit. The method has no `modifies` clause, so it cannot change the cache. |
| `Server.Service.Health` | server.py:42-44 | Always 200 with `{status: "ok"}`, whatever the cache holds; the method cannot change the cache. |

## Left out

- PDF loading, chunking (chunk size 2000, overlap 300), embedding and FAISS indexing in `create_vector_store` (main.py:58-70). These are foreign libraries, modelled as an `Indexer` parameter that may fail.
- `upload_pdf` (main.py:47-55): directory creation, writing the bytes and the confirmation print. This is file I/O, modelled as a `Saver` parameter that may fail.
- `similarity_search` and the language-model chain (main.py:77, 100-102). These are foreign calls, modelled as parameters. How the prompt template is rendered, and the formatting rules it asks of the model, are not modelled, because nothing enforces them.
- The `k=4` default is passed to the search as `DefaultK`. The search itself is not constrained to return at most k hits.
- Flask routing, `jsonify`, CORS, the `OLLAMA_BASE_URL` lookup and `app.run`. These are framework and environment concerns.
- Concurrency on the unsynchronised cache. Handlers are modelled as running one at a time.
- An `ask` request whose body is not a JSON object, where `data.get` raises outside the `try` (server.py:27-28). The body is typed as a map, which makes this a precondition.
- JSON values other than null, booleans, integers and strings. Floats, arrays and objects as `filename`, `question` or metadata values are not modelled. An array `filename` would raise an unhashable-type error outside the `try` in `ask`.
- Exception messages are opaque strings. Only exceptions raised by the four foreign operations are modelled. A failure to serialise the response is not.
- `Server.Service.Ask`: the guarantee that the cache is not modified comes from Dafny's frame rules (no `modifies` clause) rather than from a postcondition.
- `Server.Service.Upload`: the stored file's bytes and path are not modelled. Only the cache key `file.filename` is.
