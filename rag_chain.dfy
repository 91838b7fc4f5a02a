/** The answer composer built by `create_rag_chain`: it coerces whatever the
    retriever returns into documents, drops empty ones, narrows them to the
    incident numbers named in the query, and hands them to the language-model
    chain, shaping whatever comes back into an answer dictionary. The
    retriever, the chain and the wording of the document type's validation
    errors are parameters. */
module RagChain {
  import opened Common
  import opened Text
  import opened PyValues
  import opened Documents
  import IncidentTokens

  /** A value stored in a result dictionary: a plain value or a list of
      document objects. */
  datatype Field = Plain(v: Value) | DocList(docs: seq<Document>)

  /** A result dictionary, in key insertion order. */
  type Output = seq<(string, Field)>

  /** What the language-model chain does with the query and the context. */
  datatype ChainReply = ChainRaised(message: string) | ChainReturned(v: Value)

  /** What the retriever answers for (query, search mode); `None` if it raised. */
  type Retriever = (string, string) -> Option<seq<Item>>

  /** The text of the error the document type raises when its content is not
      a string or its metadata not a dictionary. */
  type ValidationText = (Value, Value) -> string

  const ValidQueryPrompt := "Please provide a valid query."
  const NotFoundAnswer := "I couldn't find any information about that incident. Please check the incident number and try again."
  const NoResponseAnswer := "No response was generated."
  const MissingAnswer := "I couldn't generate a proper response. Please try rephrasing your question."
  const MalformedAnswer := "There was an issue processing the documents. This might be due to malformed data. Please try a different query."
  const UnexpectedAnswer := "An unexpected error occurred while processing your request. Please try again later."
  const ConversionErrorContent := "[Error: Could not process document content]"

  function FieldLookup(entries: Output, key: string): (r: Option<Field>)
    ensures r.Some? ==> exists i :: 0 <= i < |entries| && entries[i] == (key, r.value)
    ensures r.None? ==> forall i :: 0 <= i < |entries| ==> entries[i].0 != key
  {
    if entries == [] then None
    else if entries[0].0 == key then Some(entries[0].1)
    else
      var r := FieldLookup(entries[1..], key);
      if r.Some? then
        var i :| 0 <= i < |entries[1..]| && entries[1..][i] == (key, r.value);
        assert entries[i + 1] == (key, r.value);
        r
      else r
  }

  /** `d.get(key, default)` on a result dictionary. */
  function FieldGet(entries: Output, key: string, default: Field): Field {
    match FieldLookup(entries, key)
    case Some(f) => f
    case None => default
  }

  predicate FieldTruthy(f: Field) {
    match f
    case Plain(v) => Truthy(v)
    case DocList(ds) => ds != []
  }

  /** `safe_convert_to_document(doc)` */
  function SafeConvert(item: Item, vt: ValidationText): Option<Document> {
    match item
    case DocItem(d) => Some(d)
    case ValueItem(Null) => None
    case ValueItem(Dict(e)) =>
      if DocumentLike(e) then
        var content := Get(e, "page_content", Str(""));
        var metadata := Get(e, "metadata", Dict([]));
        match MakeDocument(content, metadata)
        case Some(d) => Some(d)
        case None => Some(Document(ConversionErrorContent, map["error" := Str(vt(content, metadata))]))
      else Some(Document(Render(Dict(e)), map["source" := Str("converted_dict")]))
    case ValueItem(Str(s)) => Some(Document(s, map["source" := Str("converted_string")]))
    case ValueItem(v) => Some(Document(Render(v), map["source" := Str("converted_unknown")]))
  }

  /** The converted, non-empty documents of the retrieved items, in order. */
  function Converted(items: seq<Item>, vt: ValidationText): (ds: seq<Document>)
    ensures |ds| <= |items|
    ensures forall d :: d in ds ==> d.content != []
    ensures forall d :: d in ds ==> exists i :: 0 <= i < |items| && SafeConvert(items[i], vt) == Some(d)
    decreases |items|
  {
    if items == [] then []
    else
      var init := items[..|items| - 1];
      var last := items[|items| - 1];
      var head := Converted(init, vt);
      assert forall d :: d in head ==> exists i :: 0 <= i < |items| && SafeConvert(items[i], vt) == Some(d) by {
        forall d | d in head ensures exists i :: 0 <= i < |items| && SafeConvert(items[i], vt) == Some(d) {
          var i :| 0 <= i < |init| && SafeConvert(init[i], vt) == Some(d);
          assert items[i] == init[i];
        }
      }
      match SafeConvert(last, vt)
      case Some(d) => if d.content != [] then head + [d] else head
      case None => head
  }

  /** A document the re-filter keeps: its incident number is one the query
      names, or it is a mapping or reference document. */
  predicate Matches(d: Document, tokens: seq<string>) {
    var number := MetaGet(d, "incident_number", Str(""));
    (number.Str? && number.s in tokens)
    || MetaGet(d, "type", Null) in [Str("incident_mapping"), Str("incident_reference")]
  }

  function Filtered(docs: seq<Document>, tokens: seq<string>): (kept: seq<Document>)
    ensures |kept| <= |docs|
    ensures forall d :: d in kept <==> d in docs && Matches(d, tokens)
    decreases |docs|
  {
    if docs == [] then []
    else
      var init := docs[..|docs| - 1];
      var last := docs[|docs| - 1];
      assert docs == init + [last];
      Filtered(init, tokens) + (if Matches(last, tokens) then [last] else [])
  }

  /** The re-filter: the matching documents if there are any, else all. */
  function Refilter(docs: seq<Document>, tokens: seq<string>): seq<Document> {
    if tokens == [] then docs
    else
      var f := Filtered(docs, tokens);
      if f != [] then f else docs
  }

  /** A copy of the document whose metadata has a `source`, set to
      `processed_document` when there was none. */
  function WithSource(d: Document): (r: Document)
    ensures r.content == d.content && "source" in r.metadata
    ensures "source" in d.metadata ==> r.metadata == d.metadata
    ensures forall k :: k != "source" ==> (k in r.metadata <==> k in d.metadata)
    ensures forall k :: k != "source" && k in d.metadata ==> r.metadata[k] == d.metadata[k]
    ensures "source" !in d.metadata ==> r.metadata["source"] == Str("processed_document")
  {
    if "source" in d.metadata then d
    else Document(d.content, d.metadata["source" := Str("processed_document")])
  }

  function Sourced(docs: seq<Document>): (ctx: seq<Document>)
    ensures |ctx| == |docs| && forall i :: 0 <= i < |docs| ==> ctx[i] == WithSource(docs[i])
  {
    seq(|docs|, i requires 0 <= i < |docs| => WithSource(docs[i]))
  }

  /** The `answer` value made from the chain's reply. */
  function ShapeResponse(reply: ChainReply): Value {
    match reply
    case ChainReturned(Dict(e)) =>
      if "answer" in Keys(e) then Dict(e) else Dict(e + [("answer", Str(MissingAnswer))])
    case ChainReturned(v) => Dict([("answer", Str(if Truthy(v) then Render(v) else NoResponseAnswer))])
    case ChainRaised(message) =>
      Dict([("answer", Str(if IsSubstring("page_content", message) then MalformedAnswer else UnexpectedAnswer))])
  }

  function Reply(query: string, docs: seq<Document>, answer: Value): Output {
    [("input", Plain(Str(query))), ("context", DocList(docs)), ("answer", Plain(answer))]
  }

  /** `process_retrieved_docs(inputs)` as a function of its parameters. */
  function Process(input: string, searchMode: string, retriever: Retriever,
                   chain: (string, seq<Document>) -> ChainReply, vt: ValidationText): Output
  {
    var query := Strip(input);
    if query == [] then Reply("", [], Str(ValidQueryPrompt))
    else
      var docs := Converted(match retriever(query, searchMode) case Some(items) => items case None => [], vt);
      if docs == [] then Reply(query, [], Str(NotFoundAnswer))
      else
        var kept := Refilter(docs, IncidentTokens.Extract(query));
        Reply(query, kept, ShapeResponse(chain(query, Sourced(kept))))
  }

  /** The conversion loop: every item through `safe_convert_to_document`,
      keeping the documents with non-empty content. */
  method ConvertAll(items: seq<Item>, vt: ValidationText) returns (processed: seq<Document>)
    ensures processed == Converted(items, vt)
  {
    processed := [];
    var i := 0;
    while i < |items|
      invariant 0 <= i <= |items|
      invariant processed == Converted(items[..i], vt)
    {
      var p := SafeConvert(items[i], vt);
      if p.Some? && p.value.content != [] {
        processed := processed + [p.value];
      }
      ConvertedStep(items, i, vt);
      i := i + 1;
    }
    assert items[..i] == items;
  }

  lemma ConvertedStep(items: seq<Item>, i: nat, vt: ValidationText)
    requires i < |items|
    ensures Converted(items[..i + 1], vt) == Converted(items[..i], vt)
      + (var p := SafeConvert(items[i], vt); if p.Some? && p.value.content != [] then [p.value] else [])
  {
    assert items[..i + 1][..i] == items[..i];
  }

  /** The re-filter loop over the converted documents. */
  method RefilterDocs(docs: seq<Document>, tokens: seq<string>) returns (kept: seq<Document>)
    ensures kept == Refilter(docs, tokens)
  {
    kept := docs;
    if tokens != [] {
      var filtered: seq<Document> := [];
      var j := 0;
      while j < |docs|
        invariant 0 <= j <= |docs|
        invariant filtered == Filtered(docs[..j], tokens)
      {
        if Matches(docs[j], tokens) {
          filtered := filtered + [docs[j]];
        }
        assert docs[..j + 1][..j] == docs[..j];
        j := j + 1;
      }
      assert docs[..j] == docs;
      if filtered != [] {
        kept := filtered;
      }
    }
  }

  /** The context loop: a copy of each document with a `source`. */
  method BuildContext(docs: seq<Document>) returns (context: seq<Document>)
    ensures context == Sourced(docs)
  {
    context := [];
    var k := 0;
    while k < |docs|
      invariant 0 <= k <= |docs|
      invariant context == Sourced(docs[..k])
    {
      context := context + [WithSource(docs[k])];
      k := k + 1;
    }
    assert docs[..k] == docs;
  }

  /** `process_retrieved_docs`: conversion, re-filter and context, then one
      chain call. */
  method ProcessRetrievedDocs(input: string, searchMode: string, retriever: Retriever,
                              chain: (string, seq<Document>) -> ChainReply, vt: ValidationText)
    returns (out: Output)
    ensures out == Process(input, searchMode, retriever, chain, vt)
  {
    var query := Strip(input);
    if query == [] {
      return Reply("", [], Str(ValidQueryPrompt));
    }
    var items: seq<Item> := [];
    var reply := retriever(query, searchMode);
    if reply.Some? {
      items := reply.value;
    }
    var docs := ConvertAll(items, vt);
    if docs == [] {
      return Reply(query, [], Str(NotFoundAnswer));
    }
    docs := RefilterDocs(docs, IncidentTokens.Extract(query));
    var context := BuildContext(docs);
    var response := ShapeResponse(chain(query, context));
    out := Reply(query, docs, response);
  }

  // ----- query_rag_chain -----

  /** What the composed chain does with (stripped query, search mode): it
      raises, returns something that is not a dictionary (with that type's
      name), or returns a dictionary. */
  datatype RagReply = RagRaised(message: string) | RagNonDict(typeName: string) | RagReturned(entries: Output)

  function ErrorOutput(query: string, message: string): Output {
    [("input", Plain(Str(query))), ("context", DocList([])),
     ("answer", Plain(Str("An error occurred while processing your query: " + message + ". Please try again with a different query.")))]
  }

  /** The items a `for` loop over the field visits. */
  function FieldItems(f: Field): Result<seq<Item>> {
    match f
    case DocList(ds) => Ok(seq(|ds|, i requires 0 <= i < |ds| => DocItem(ds[i])))
    case Plain(v) =>
      match Iterate(v)
      case Ok(xs) => Ok(seq(|xs|, i requires 0 <= i < |xs| => ValueItem(xs[i])))
      case Err(e) => Err(e)
  }

  /** The documents `ensure_document` builds, skipping items it raises on. */
  function Ensured(items: seq<Item>): (ds: seq<Document>)
    ensures |ds| <= |items|
    decreases |items|
  {
    if items == [] then []
    else
      var init := Ensured(items[..|items| - 1]);
      match EnsureDocument(items[|items| - 1])
      case Some(d) => init + [d]
      case None => init
  }

  const BlankQueryOutput: Output :=
    [("input", Plain(Str(""))), ("context", DocList([])), ("result", Plain(Str(ValidQueryPrompt))),
     ("answer", Plain(Str(ValidQueryPrompt))), ("source_documents", DocList([]))]

  predicate ValidQuery(query: Value) {
    Truthy(query) && query.Str? && Strip(query.s) != []
  }

  function ResultOutput(query: string, e: Output, sources: Field): Output {
    [("input", Plain(Str(query))),
     ("result", FieldGet(e, "result", Plain(Str("")))),
     ("answer", FieldGet(e, "answer", FieldGet(e, "result", Plain(Str(""))))),
     ("context", DocList([])),
     ("source_documents", sources)]
  }

  /** `query_rag_chain(rag_chain, query, search_mode)` */
  function Query(ragChain: (string, string) -> RagReply, query: Value, searchMode: string): Output {
    if !ValidQuery(query) then BlankQueryOutput
    else
      var q := query.s;
      match ragChain(Strip(q), searchMode)
      case RagRaised(message) => ErrorOutput(q, message)
      case RagNonDict(t) => ErrorOutput(q, "'" + t + "' object has no attribute 'get'")
      case RagReturned(e) =>
        var sources := FieldGet(e, "source_documents", FieldGet(e, "context", Plain(List([]))));
        if !FieldTruthy(sources) then ResultOutput(q, e, sources)
        else
          match FieldItems(sources)
          case Err(err) => ErrorOutput(q, err.message)
          case Ok(items) =>
            var ds := Ensured(items);
            ResultOutput(q, e, DocList(ds))[3 := ("context", DocList(ds))]
  }

  /** The loop over the reply's sources, skipping items `ensure_document`
      raises on. */
  method EnsureAll(items: seq<Item>) returns (processed: seq<Document>)
    ensures processed == Ensured(items)
  {
    processed := [];
    var i := 0;
    while i < |items|
      invariant 0 <= i <= |items|
      invariant processed == Ensured(items[..i])
    {
      var d := EnsureDocument(items[i]);
      if d.Some? {
        processed := processed + [d.value];
      }
      assert items[..i + 1][..i] == items[..i];
      i := i + 1;
    }
    assert items[..i] == items;
  }

  /** `query_rag_chain`: the guard, the chain call, the key fallbacks and the
      document loop. */
  method QueryRagChain(ragChain: (string, string) -> RagReply, query: Value, searchMode: string)
    returns (out: Output)
    ensures out == Query(ragChain, query, searchMode)
  {
    if !Truthy(query) || !query.Str? || Strip(query.s) == [] {
      return BlankQueryOutput;
    }
    var q := query.s;
    var response := ragChain(Strip(q), searchMode);
    match response {
      case RagRaised(message) =>
        return ErrorOutput(q, message);
      case RagNonDict(t) =>
        return ErrorOutput(q, "'" + t + "' object has no attribute 'get'");
      case RagReturned(e) =>
        var sources := FieldGet(e, "source_documents", FieldGet(e, "context", Plain(List([]))));
        out := ResultOutput(q, e, sources);
        if FieldTruthy(sources) {
          var iter := FieldItems(sources);
          if iter.Err? {
            return ErrorOutput(q, iter.error.message);
          }
          var processed := EnsureAll(iter.value);
          out := ResultOutput(q, e, DocList(processed))[3 := ("context", DocList(processed))];
        }
    }
  }

  // ----- properties -----

  /** A blank query is answered with the fixed prompt whatever the retriever
      and the chain would do: neither is consulted. */
  lemma BlankQueryShortCircuits(input: string, searchMode: string, retriever: Retriever, other: Retriever,
                                chain: (string, seq<Document>) -> ChainReply, vt: ValidationText)
    requires forall i :: 0 <= i < |input| ==> IsSpace(input[i])
    ensures Process(input, searchMode, retriever, chain, vt) == Reply("", [], Str(ValidQueryPrompt))
    ensures Process(input, searchMode, retriever, chain, vt) == Process(input, searchMode, other, chain, vt)
  {
    StripEmptyIff(input);
  }

  /** A retriever that raises is treated as one that found nothing. */
  lemma RaisingRetrieverFindsNothing(input: string, searchMode: string, retriever: Retriever,
                                     chain: (string, seq<Document>) -> ChainReply, vt: ValidationText)
    requires Strip(input) != [] && retriever(Strip(input), searchMode).None?
    ensures Process(input, searchMode, retriever, chain, vt) == Reply(Strip(input), [], Str(NotFoundAnswer))
  {
  }

  /** The re-filter never empties a non-empty list, keeps only given
      documents, and keeps only matching ones whenever one matches. */
  lemma RefilterProperties(docs: seq<Document>, tokens: seq<string>)
    ensures docs != [] ==> Refilter(docs, tokens) != []
    ensures forall d :: d in Refilter(docs, tokens) ==> d in docs
    ensures tokens != [] && (exists d :: d in docs && Matches(d, tokens)) ==>
      forall d :: d in Refilter(docs, tokens) <==> d in docs && Matches(d, tokens)
  {
    if tokens != [] && exists d :: d in docs && Matches(d, tokens) {
      var d :| d in docs && Matches(d, tokens);
      assert d in Filtered(docs, tokens);
    }
  }

  /** What the chain is given and what is returned as context: when the query
      is not blank and some retrieved item converts to a non-empty document,
      the returned context is non-empty, every document in it is the
      unmodified conversion of a retrieved item with non-empty content, and
      the chain sees the same documents with a `source` filled in. */
  lemma ProcessContext(input: string, searchMode: string, retriever: Retriever,
                       chain: (string, seq<Document>) -> ChainReply, vt: ValidationText)
    requires Strip(input) != []
    ensures var items := match retriever(Strip(input), searchMode) case Some(xs) => xs case None => [];
      var out := Process(input, searchMode, retriever, chain, vt);
      var docs := Converted(items, vt);
      && out[1].1.DocList?
      && (docs == [] <==> out[1].1.docs == [])
      && (forall d :: d in out[1].1.docs ==> d.content != [] && exists i :: 0 <= i < |items| && SafeConvert(items[i], vt) == Some(d))
      && (docs != [] ==> out[2].1 == Plain(ShapeResponse(chain(Strip(input), Sourced(out[1].1.docs)))))
  {
    var items := match retriever(Strip(input), searchMode) case Some(xs) => xs case None => [];
    var docs := Converted(items, vt);
    RefilterProperties(docs, IncidentTokens.Extract(Strip(input)));
  }

  lemma {:induction false} KeysAppend(e: seq<(string, Value)>, k: string, v: Value)
    ensures Keys(e + [(k, v)]) == Keys(e) + [k]
  {
    assert |Keys(e + [(k, v)])| == |Keys(e) + [k]|;
  }

  /** Whatever the chain does, the composed answer is a dictionary with an
      `answer` key; a dictionary reply that already has one is kept as it
      is, and a failure's message decides between the two fixed apologies. */
  lemma ShapeResponseHasAnswer(reply: ChainReply)
    ensures ShapeResponse(reply).Dict? && "answer" in Keys(ShapeResponse(reply).entries)
    ensures reply.ChainReturned? && reply.v.Dict? && "answer" in Keys(reply.v.entries) ==> ShapeResponse(reply) == reply.v
    ensures reply.ChainRaised? ==>
      Lookup(ShapeResponse(reply).entries, "answer")
        == Some(Str(if IsSubstring("page_content", reply.message) then MalformedAnswer else UnexpectedAnswer))
  {
    if reply.ChainReturned? && reply.v.Dict? && "answer" !in Keys(reply.v.entries) {
      KeysAppend(reply.v.entries, "answer", Str(MissingAnswer));
    }
  }

  /** The two conversions compared: `safe_convert_to_document` yields nothing
      only for `None`; on documents, strings, scalars and document-like
      dictionaries, wherever `ensure_document` builds a document the safe
      conversion has the same content (only the metadata differ: the safe one
      tags its `source`); on any other dictionary the safe conversion keeps
      its text while `ensure_document` builds an empty document. */
  lemma ConversionsAgree(item: Item, vt: ValidationText)
    ensures SafeConvert(item, vt).None? <==> item == ValueItem(Null)
    ensures item != ValueItem(Null) && !(item.ValueItem? && item.v.Dict? && !DocumentLike(item.v.entries))
            && EnsureDocument(item).Some? ==>
      SafeConvert(item, vt).value.content == EnsureDocument(item).value.content
    ensures item.ValueItem? && item.v.Dict? && !DocumentLike(item.v.entries) ==>
      && SafeConvert(item, vt) == Some(Document(Render(item.v), map["source" := Str("converted_dict")]))
      && EnsureDocument(item) == Some(Document("", map[]))
    ensures item.DocItem? ==> SafeConvert(item, vt) == EnsureDocument(item) == Some(item.doc)
  {
    if item.ValueItem? && item.v.Dict? && !DocumentLike(item.v.entries) {
      var e := item.v.entries;
      assert Lookup(e, "page_content") == None && Lookup(e, "metadata") == None;
      assert ToMap([]) == map[];
    }
  }

  /** `query_rag_chain` answers an empty, blank or non-string query with the
      fixed dictionary without calling the chain; otherwise the result has
      either the five keys of a normal reply or the three of an error reply. */
  lemma QueryShape(ragChain: (string, string) -> RagReply, query: Value, searchMode: string)
    ensures !ValidQuery(query) ==> Query(ragChain, query, searchMode) == BlankQueryOutput
    ensures var out := Query(ragChain, query, searchMode);
      Keys'(out) == ["input", "context", "result", "answer", "source_documents"]
      || Keys'(out) == ["input", "result", "answer", "context", "source_documents"]
      || Keys'(out) == ["input", "context", "answer"]
  {
    if ValidQuery(query) {
      var q := query.s;
      match ragChain(Strip(q), searchMode)
      case RagRaised(message) =>
        assert Keys'(ErrorOutput(q, message)) == ["input", "context", "answer"];
      case RagNonDict(t) =>
        assert Keys'(ErrorOutput(q, "'" + t + "' object has no attribute 'get'")) == ["input", "context", "answer"];
      case RagReturned(e) =>
        var sources := FieldGet(e, "source_documents", FieldGet(e, "context", Plain(List([]))));
        ResultOutputKeys(q, e, sources);
        if FieldTruthy(sources) {
          match FieldItems(sources)
          case Err(err) =>
            assert Keys'(ErrorOutput(q, err.message)) == ["input", "context", "answer"];
          case Ok(items) =>
            var ds := Ensured(items);
            ResultOutputKeys(q, e, DocList(ds));
            var out := ResultOutput(q, e, DocList(ds))[3 := ("context", DocList(ds))];
            assert Keys'(out) == Keys'(ResultOutput(q, e, DocList(ds)));
        }
    } else {
      assert Keys'(BlankQueryOutput) == ["input", "context", "result", "answer", "source_documents"];
    }
  }

  lemma ResultOutputKeys(q: string, e: Output, sources: Field)
    ensures Keys'(ResultOutput(q, e, sources)) == ["input", "result", "answer", "context", "source_documents"]
  {
  }

  function Keys'(out: Output): seq<string> {
    seq(|out|, i requires 0 <= i < |out| => out[i].0)
  }

  /** In a normal reply the answer falls back from `answer` to `result` to the
      empty string, and `context` and `source_documents` are the same list of
      documents, at most one per item of the reply's sources. */
  lemma QueryFallbacks(ragChain: (string, string) -> RagReply, query: Value, searchMode: string)
    requires ValidQuery(query) && ragChain(Strip(query.s), searchMode).RagReturned?
    ensures var e := ragChain(Strip(query.s), searchMode).entries;
      var out := Query(ragChain, query, searchMode);
      |out| == 5 ==>
        && out[2].1 == (if FieldLookup(e, "answer").Some? then FieldLookup(e, "answer").value
                        else if FieldLookup(e, "result").Some? then FieldLookup(e, "result").value
                        else Plain(Str("")))
        && (FieldTruthy(out[4].1) ==> out[3].1 == out[4].1 && out[4].1.DocList?)
  {
    var q := query.s;
    var e := ragChain(Strip(q), searchMode).entries;
    var sources := FieldGet(e, "source_documents", FieldGet(e, "context", Plain(List([]))));
    var answer := FieldGet(e, "answer", FieldGet(e, "result", Plain(Str(""))));
    assert ResultOutput(q, e, sources)[2].1 == answer;
    if FieldTruthy(sources) && FieldItems(sources).Ok? {
      var ds := Ensured(FieldItems(sources).value);
      var out := ResultOutput(q, e, DocList(ds))[3 := ("context", DocList(ds))];
      assert Query(ragChain, query, searchMode) == out;
      assert out[2].1 == answer && out[3].1 == out[4].1 == DocList(ds);
    }
  }
}
