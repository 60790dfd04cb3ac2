/** The answering pipeline of main.py: `retrieve_docs` turns search hits into
    records that carry only content, page and section, and `question_pdf`
    joins their contents into a context, asks the language model, cleans its
    answer and builds one truncated source reference per record.

    The similarity search and the language model are foreign calls; they are
    parameters here, and each may fail (raise), which is a `Result.Err`. */
module Pipeline {
  import opened Wrappers
  import opened Values
  import opened Text
  import opened Think

  /** What a search hit exposes as `doc.metadata`: the attribute may be missing,
      may hold something other than a dictionary, or may be a dictionary. */
  datatype Metadata = NoMetadata | NotADict | Dict(entries: map<string, Value>)

  /** A chunk returned by the similarity search. */
  datatype Hit = Hit(pageContent: string, metadata: Metadata)

  /** A vector index over a document's chunks, as `create_vector_store` builds
      it. Its structure is the search library's business: the model never looks
      inside it and only hands it to the `Searcher`. */
  datatype Index = Index(chunks: seq<Hit>)

  /** `db.similarity_search(query, k=k)`. */
  type Searcher = (Index, Value, nat) -> Result<seq<Hit>>

  /** The prompt-and-model chain: the answer text for a question and a context. */
  type Llm = (Value, string) -> Result<string>

  /** A Python dictionary with string keys. */
  type Record = map<string, Value>

  datatype Answer = Answer(answer: string, sources: seq<Record>)

  const DefaultK: nat := 4
  const ContentLimit: nat := 200
  const Ellipsis: string := "..."
  const ContextSeparator: string := "\n\n"

  /** The three keys of a record are different strings. */
  lemma KeysDistinct()
    ensures "section" != "content" && "page" != "content" && "section" != "page"
  {
    assert "section"[0] != "content"[0];
  }

  /** The record `retrieve_docs` appends for one hit: the hit's content, and its
      page and section taken from a metadata dictionary, "" wherever they are
      not available. Nothing else from the metadata (the file path among it) is kept. */
  function Enriched(h: Hit): (d: Record)
    ensures d.Keys == {"content", "page", "section"}
    ensures d["content"] == VStr(h.pageContent)
    ensures h.metadata.Dict? && "page" in h.metadata.entries ==> d["page"] == h.metadata.entries["page"]
    ensures !(h.metadata.Dict? && "page" in h.metadata.entries) ==> d["page"] == VStr("")
    ensures h.metadata.Dict? && "section" in h.metadata.entries ==> d["section"] == h.metadata.entries["section"]
    ensures !(h.metadata.Dict? && "section" in h.metadata.entries) ==> d["section"] == VStr("")
  {
    var md := if h.metadata.Dict? then h.metadata.entries else map[];
    map["content" := VStr(h.pageContent),
        "page" := Get(md, "page", VStr("")),
        "section" := Get(md, "section", VStr(""))]
  }

  /** `retrieve_docs(db, query, k)`: one enriched record per hit, in search order. */
  method RetrieveDocs(search: Searcher, db: Index, query: Value, k: nat) returns (r: Result<seq<Record>>)
    ensures search(db, query, k).Err? ==> r == Err(search(db, query, k).message)
    ensures search(db, query, k).Ok? ==>
              && r.Ok?
              && |r.value| == |search(db, query, k).value|
              && forall i :: 0 <= i < |r.value| ==> r.value[i] == Enriched(search(db, query, k).value[i])
  {
    var docs := search(db, query, k);
    if docs.Err? {
      return Err(docs.message);
    }
    var enriched: seq<Record> := [];
    for i := 0 to |docs.value|
      invariant |enriched| == i
      invariant forall j :: 0 <= j < i ==> enriched[j] == Enriched(docs.value[j])
    {
      var doc := docs.value[i];
      var page := VStr("");
      var section := VStr("");
      if doc.metadata.Dict? {
        page := Get(doc.metadata.entries, "page", VStr(""));
        section := Get(doc.metadata.entries, "section", VStr(""));
      }
      enriched := enriched + [map["content" := VStr(doc.pageContent), "page" := page, "section" := section]];
    }
    return Ok(enriched);
  }

  /** The records `retrieve_docs` builds from a sequence of hits. */
  function EnrichAll(hits: seq<Hit>): (docs: seq<Record>)
    ensures |docs| == |hits| && AllDocRecords(docs)
    ensures forall i :: 0 <= i < |hits| ==> docs[i] == Enriched(hits[i])
  {
    seq(|hits|, i requires 0 <= i < |hits| => Enriched(hits[i]))
  }

  /** A record as `question_pdf` reads it: a string content, and a page and a section. */
  predicate IsDocRecord(d: Record)
  {
    "content" in d && d["content"].VStr? && "page" in d && "section" in d
  }

  /** Every record in `documents` is one `question_pdf` can read. */
  predicate AllDocRecords(documents: seq<Record>)
  {
    forall i {:trigger documents[i]} :: 0 <= i < |documents| ==> IsDocRecord(documents[i])
  }

  /** Every record that `retrieve_docs` produces is one `question_pdf` can read. */
  lemma EnrichedIsDocRecord(h: Hit)
    ensures IsDocRecord(Enriched(h))
  {
  }

  /** The contents of the records, in order. */
  function Contents(documents: seq<Record>): (cs: seq<string>)
    requires AllDocRecords(documents)
    ensures |cs| == |documents|
    ensures forall i :: 0 <= i < |cs| ==> VStr(cs[i]) == documents[i]["content"]
  {
    if |documents| == 0 then [] else [documents[0]["content"].s] + Contents(documents[1..])
  }

  /** `"\n\n".join(d["content"] for d in documents)`: empty without records,
      the content itself for one record, and otherwise starting with the first
      record's content. */
  function Context(documents: seq<Record>): (c: string)
    requires AllDocRecords(documents)
    ensures |documents| == 0 ==> c == ""
    ensures |documents| == 1 ==> VStr(c) == documents[0]["content"]
    ensures |documents| > 0 ==> At(c, 0, documents[0]["content"].s)
  {
    Join(ContextSeparator, Contents(documents))
  }

  /** The context is the contents plus one two-character separator between each two. */
  lemma ContextLength(documents: seq<Record>)
    requires AllDocRecords(documents)
    ensures |Context(documents)| ==
              if |documents| == 0 then 0 else TotalLength(Contents(documents)) + 2 * (|documents| - 1)
  {
    JoinLength(ContextSeparator, Contents(documents));
  }

  /** The content of record `i` stands in the context at its offset, so the
      contents appear in retrieval order. */
  lemma ContextPiece(documents: seq<Record>, i: nat)
    requires AllDocRecords(documents)
    requires i < |documents|
    ensures var cs := Contents(documents);
            var o := Offset(ContextSeparator, cs, i);
            && o + |cs[i]| <= |Context(documents)|
            && Context(documents)[o..o + |cs[i]|] == documents[i]["content"].s
  {
    var cs := Contents(documents);
    JoinPiece(ContextSeparator, cs, i);
    assert VStr(cs[i]) == documents[i]["content"];
  }

  /** The answer as returned: reasoning blocks removed, surrounding whitespace stripped. */
  function CleanAnswer(raw: string): (r: string)
    ensures |r| <= |raw|
    ensures r != [] ==> !IsSpace(r[0]) && !IsSpace(r[|r| - 1])
  {
    StripWhitespace(RemoveThinkBlocks(raw))
  }

  /** An answer without an opening tag is only stripped of surrounding whitespace. */
  lemma CleanWithoutOpen(raw: string)
    requires !Contains(raw, Open)
    ensures CleanAnswer(raw) == StripWhitespace(raw)
  {
    RemoveWithoutOpen(raw);
  }

  /** Cleaning does not guarantee that no tag remains. */
  lemma CleanMayKeepTag()
    ensures CleanAnswer("<thi<think></think>nk>") == "<think>"
    ensures Contains(CleanAnswer("<thi<think></think>nk>"), Open)
  {
    NestedOpenSurvives();
    StripWhitespaceIdentity("<think>");
    assert At("<think>", 0, Open);
  }

  /** Cleaning is not idempotent. */
  lemma CleanNotIdempotent()
    ensures var once := CleanAnswer("<thi<think></think>nk></think>");
            CleanAnswer(once) != once
  {
    OnePassLeavesBlock();
    StripWhitespaceIdentity("<think></think>");
    EmptyBlockRemoved();
  }

  /** `d["content"][:200] + ("..." if len(d["content"]) > 200 else "")`. */
  function Truncate(s: string): (r: string)
    ensures |r| <= ContentLimit + |Ellipsis|
    ensures |s| <= ContentLimit ==> r == s
    ensures |s| > ContentLimit ==> |r| == ContentLimit + |Ellipsis|
                                   && r[..ContentLimit] == s[..ContentLimit]
                                   && r[ContentLimit..] == Ellipsis
  {
    s[..if |s| < ContentLimit then |s| else ContentLimit] + (if |s| > ContentLimit then Ellipsis else "")
  }

  /** The source reference `question_pdf` builds for one record: the section and
      the page only when truthy, and the truncated content always. */
  function SourceRef(d: Record): (ref: Record)
    requires IsDocRecord(d)
    ensures ref.Keys <= {"section", "page", "content"}
    ensures "section" in ref <==> Truthy(d["section"])
    ensures "page" in ref <==> Truthy(d["page"])
    ensures "section" in ref ==> ref["section"] == d["section"]
    ensures "page" in ref ==> ref["page"] == d["page"]
    ensures "content" in ref && ref["content"] == VStr(Truncate(d["content"].s))
  {
    map key | key in {"section", "page", "content"} && (key == "content" || Truthy(d[key])) ::
      if key == "content" then VStr(Truncate(d["content"].s)) else d[key]
  }

  /** A dictionary that holds the truncated content, and the section and the page
      exactly when they are truthy, is the source reference of `d`. */
  lemma SourceRefKeyByKey(d: Record, ref: Record)
    requires IsDocRecord(d)
    requires "content" in ref && ref["content"] == VStr(Truncate(d["content"].s))
    requires "section" in ref <==> Truthy(d["section"])
    requires "section" in ref ==> ref["section"] == d["section"]
    requires "page" in ref <==> Truthy(d["page"])
    requires "page" in ref ==> ref["page"] == d["page"]
    requires ref.Keys <= {"section", "page", "content"}
    ensures ref == SourceRef(d)
  {
    var spec := SourceRef(d);
    assert ref.Keys == spec.Keys;
  }

  /** The `sources` loop of `question_pdf`: one reference per record, in order,
      each dictionary filled key by key. */
  method BuildSources(documents: seq<Record>) returns (sources: seq<Record>)
    requires AllDocRecords(documents)
    ensures |sources| == |documents|
    ensures forall i :: 0 <= i < |documents| ==> sources[i] == SourceRef(documents[i])
  {
    sources := [];
    for i := 0 to |documents|
      invariant |sources| == i
      invariant forall j :: 0 <= j < i ==> sources[j] == SourceRef(documents[j])
    {
      var d := documents[i];
      KeysDistinct();
      var ref: Record := map[];
      if Truthy(d["section"]) {
        ref := ref["section" := d["section"]];
      }
      if Truthy(d["page"]) {
        ref := ref["page" := d["page"]];
      }
      ref := ref["content" := VStr(Truncate(d["content"].s))];
      SourceRefKeyByKey(d, ref);
      sources := sources + [ref];
    }
  }

  /** `question_pdf(question, documents)`, with the model's reply supplied by `llm`. */
  method QuestionPdf(question: Value, documents: seq<Record>, llm: Llm) returns (r: Result<Answer>)
    requires AllDocRecords(documents)
    ensures llm(question, Context(documents)).Err? ==> r == Err(llm(question, Context(documents)).message)
    ensures llm(question, Context(documents)).Ok? ==>
              && r.Ok?
              && r.value.answer == CleanAnswer(llm(question, Context(documents)).value)
              && |r.value.sources| == |documents|
              && forall i :: 0 <= i < |documents| ==> r.value.sources[i] == SourceRef(documents[i])
  {
    var context := Context(documents);
    var answer := llm(question, context);
    if answer.Err? {
      return Err(answer.message);
    }
    var answerClean := CleanAnswer(answer.value);
    var sources := BuildSources(documents);
    return Ok(Answer(answerClean, sources));
  }
}
