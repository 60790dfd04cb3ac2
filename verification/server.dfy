/** The HTTP handlers of server.py and the process-wide index cache they share.

    `upload` stores and indexes a PDF and records the index under its file
    name; `ask` looks the index up and answers a question from it; `health`
    reports liveness. Handlers run one at a time here. Storing the file and
    building the index are foreign operations passed in as parameters; each
    may fail, which the handler turns into a 500 response. */
module Server {
  import opened Wrappers
  import opened Values
  import opened Pipeline

  /** An uploaded file as the web framework hands it over. */
  datatype FileUpload = FileUpload(filename: string, content: seq<bv8>)

  /** The JSON bodies the handlers send. */
  datatype Body =
    | UploadOk(filename: string)                     // {"status": "ok", "filename": ...}
    | HealthOk                                       // {"status": "ok"}
    | Answered(answer: string, sources: seq<Record>) // {"answer": ..., "sources": [...]}
    | Error(message: string)                         // {"error": ...}

  datatype Response = Response(code: int, body: Body)

  const NoFileMessage: string := "No file uploaded"
  const NoSelectedFileMessage: string := "No selected file"
  const UploadFailedPrefix: string := "Error uploading or processing file: "
  const MissingFieldMessage: string := "Missing filename or question"
  const NotIndexedMessage: string := "Document not found or not indexed. Please upload again."
  const AnswerFailedPrefix: string := "Error generating answer: "

  /** `main.upload_pdf`: stores the file and returns the path it was stored at. */
  type Saver = FileUpload -> Result<string>

  /** `main.create_vector_store`: loads, chunks, embeds and indexes a stored PDF. */
  type Indexer = string -> Result<Index>

  /** The cache that a sequence of successful uploads leaves behind, each one
      overwriting any earlier entry for the same file name. */
  function Replay(uploads: seq<(string, Index)>): map<string, Index>
  {
    if |uploads| == 0 then map[]
    else Replay(uploads[..|uploads| - 1])[uploads[|uploads| - 1].0 := uploads[|uploads| - 1].1]
  }

  /** The cache's keys are exactly the file names of the successful uploads. */
  lemma {:induction false} ReplayKeys(uploads: seq<(string, Index)>)
    ensures Replay(uploads).Keys == set i | 0 <= i < |uploads| :: uploads[i].0
  {
    if |uploads| > 0 {
      var init := uploads[..|uploads| - 1];
      ReplayKeys(init);
      assert forall i :: 0 <= i < |init| ==> init[i] == uploads[i];
    }
  }

  /** A file name maps to the index of its last successful upload. */
  lemma {:induction false} ReplayLatest(uploads: seq<(string, Index)>, i: nat)
    requires i < |uploads|
    requires forall j :: i < j < |uploads| ==> uploads[j].0 != uploads[i].0
    ensures uploads[i].0 in Replay(uploads) && Replay(uploads)[uploads[i].0] == uploads[i].1
  {
    if i < |uploads| - 1 {
      var init := uploads[..|uploads| - 1];
      ReplayLatest(init, i);
    }
  }

  class Service {
    /** `db_cache`: file name to index. */
    var cache: map<string, Index>
    /** The successful uploads since the process started, oldest first. */
    ghost var uploads: seq<(string, Index)>

    ghost predicate Valid()
      reads this
    {
      cache == Replay(uploads)
    }

    /** The process starts with an empty cache. */
    constructor ()
      ensures Valid() && cache == map[] && uploads == []
    {
      cache := map[];
      uploads := [];
    }

    /** `upload()`: validates the request, stores and indexes the file, and
        caches the index only once both steps have succeeded. */
    method Upload(files: map<string, FileUpload>, save: Saver, build: Indexer) returns (resp: Response)
      requires Valid()
      modifies this
      ensures Valid()
      ensures "file" !in files ==> resp == Response(400, Error(NoFileMessage))
      ensures "file" in files && files["file"].filename == "" ==> resp == Response(400, Error(NoSelectedFileMessage))
      ensures "file" in files && files["file"].filename != "" ==>
                var file := files["file"];
                match save(file)
                case Err(e) => resp == Response(500, Error(UploadFailedPrefix + e))
                case Ok(path) =>
                  match build(path)
                  case Err(e) => resp == Response(500, Error(UploadFailedPrefix + e))
                  case Ok(db) =>
                    && resp == Response(200, UploadOk(file.filename))
                    && cache == old(cache)[file.filename := db]
                    && uploads == old(uploads) + [(file.filename, db)]
      ensures resp.code != 200 ==> cache == old(cache) && uploads == old(uploads)
      ensures resp.code == 200 ==>
                && "file" in files
                && cache.Keys == old(cache).Keys + {files["file"].filename}
                && forall name :: name in old(cache) && name != files["file"].filename ==> cache[name] == old(cache)[name]
    {
      if "file" !in files {
        return Response(400, Error(NoFileMessage));
      }
      var file := files["file"];
      if file.filename == "" {
        return Response(400, Error(NoSelectedFileMessage));
      }
      var filePath := save(file);
      if filePath.Err? {
        return Response(500, Error(UploadFailedPrefix + filePath.message));
      }
      var db := build(filePath.value);
      if db.Err? {
        return Response(500, Error(UploadFailedPrefix + db.message));
      }
      cache := cache[file.filename := db.value];
      uploads := uploads + [(file.filename, db.value)];
      assert uploads[..|uploads| - 1] == old(uploads);
      return Response(200, UploadOk(file.filename));
    }

    /** `ask()` on a JSON object body: both fields must be truthy, then the
        file name must name a cached index, and only then are the search and the
        model consulted. The cache is only read. */
    method Ask(data: map<string, Value>, search: Searcher, llm: Llm) returns (resp: Response)
      ensures resp.code == 200 || resp.code == 400 || resp.code == 500
      ensures !Truthy(Get(data, "filename", VNull)) || !Truthy(Get(data, "question", VNull)) ==>
                resp == Response(400, Error(MissingFieldMessage))
      ensures Truthy(Get(data, "filename", VNull)) && Truthy(Get(data, "question", VNull))
              && !(Get(data, "filename", VNull).VStr? && Get(data, "filename", VNull).s in cache) ==>
                resp == Response(400, Error(NotIndexedMessage))
      ensures var question := Get(data, "question", VNull);
              var name := Get(data, "filename", VNull);
              Truthy(name) && Truthy(question) && name.VStr? && name.s in cache ==>
                match search(cache[name.s], question, DefaultK)
                case Err(e) => resp == Response(500, Error(AnswerFailedPrefix + e))
                case Ok(hits) =>
                  var docs := EnrichAll(hits);
                  match llm(question, Context(docs))
                  case Err(e) => resp == Response(500, Error(AnswerFailedPrefix + e))
                  case Ok(raw) =>
                    && resp.code == 200 && resp.body.Answered?
                    && resp.body.answer == CleanAnswer(raw)
                    && |resp.body.sources| == |hits|
                    && forall i :: 0 <= i < |hits| ==> resp.body.sources[i] == SourceRef(docs[i])
    {
      var filename := Get(data, "filename", VNull);
      var question := Get(data, "question", VNull);
      if !Truthy(filename) || !Truthy(question) {
        return Response(400, Error(MissingFieldMessage));
      }
      if !(filename.VStr? && filename.s in cache) {
        return Response(400, Error(NotIndexedMessage));
      }
      var db := cache[filename.s];
      var docs := RetrieveDocs(search, db, question, DefaultK);
      if docs.Err? {
        return Response(500, Error(AnswerFailedPrefix + docs.message));
      }
      assert docs.value == EnrichAll(search(db, question, DefaultK).value);
      var result := QuestionPdf(question, docs.value, llm);
      if result.Err? {
        return Response(500, Error(AnswerFailedPrefix + result.message));
      }
      return Response(200, Answered(result.value.answer, result.value.sources));
    }

    /** `health()`: the same answer whatever the cache holds. */
    method Health() returns (resp: Response)
      ensures resp == Response(200, HealthOk)
    {
      return Response(200, HealthOk);
    }
  }
}
