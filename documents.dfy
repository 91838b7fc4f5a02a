/** The document type shared by ingestion, retrieval and answer composition:
    page text plus a metadata dictionary. */
module Documents {
  import opened Common
  import opened PyValues

  datatype Document = Document(content: string, metadata: map<string, Value>)

  /** `doc.metadata.get(key, default)` */
  function MetaGet(d: Document, key: string, default: Value): Value {
    if key in d.metadata then d.metadata[key] else default
  }

  /** The document carries the string `value` under `key`. */
  predicate HasMeta(d: Document, key: string, value: string) {
    key in d.metadata && d.metadata[key] == Str(value)
  }

  /** A retrieved item: a document object or any other Python value. */
  datatype Item = DocItem(doc: Document) | ValueItem(v: Value)

  /** The keys of a plain dictionary as a map, the first entry for a key
      winning as in `Lookup`. */
  function ToMap(entries: seq<(string, Value)>): (m: map<string, Value>)
    ensures forall k :: k in m <==> k in Keys(entries)
    ensures forall k :: k in m ==> Lookup(entries, k) == Some(m[k])
  {
    if entries == [] then map[]
    else
      var m := ToMap(entries[1..]);
      assert Keys(entries) == [entries[0].0] + Keys(entries[1..]);
      m[entries[0].0 := entries[0].1]
  }

  /** `Document(page_content=content, metadata=metadata)`: the document type
      accepts only a string and a dictionary. */
  function MakeDocument(content: Value, metadata: Value): (r: Option<Document>)
    ensures r.Some? <==> content.Str? && metadata.Dict?
    ensures r.Some? ==> r.value.content == content.s && r.value.metadata == ToMap(metadata.entries)
  {
    if content.Str? && metadata.Dict? then Some(Document(content.s, ToMap(metadata.entries))) else None
  }

  /** A dictionary that looks like a serialised document. */
  predicate DocumentLike(e: seq<(string, Value)>) {
    "page_content" in Keys(e) || "metadata" in Keys(e)
  }

  /** `ensure_document(doc)`, defined identically by the loader and by the
      answer composer; `None` when building the document raises. */
  function EnsureDocument(item: Item): Option<Document> {
    match item
    case DocItem(d) => Some(d)
    case ValueItem(Dict(e)) => MakeDocument(Get(e, "page_content", Str("")), Get(e, "metadata", Dict([])))
    case ValueItem(v) => Some(Document(Render(v), map[]))
  }

  /** `ensure_document` case by case: a document is returned as it is; a
      dictionary gives a document exactly when its `page_content` (default
      empty) is a string and its `metadata` (default empty) a dictionary, so
      a dictionary with neither key gives an empty document; any other value
      gives its string form with no metadata. */
  lemma EnsureDocumentCases(item: Item)
    ensures item.DocItem? ==> EnsureDocument(item) == Some(item.doc)
    ensures item.ValueItem? && item.v.Dict? ==>
      var e := item.v.entries;
      && (EnsureDocument(item).Some? <==> Get(e, "page_content", Str("")).Str? && Get(e, "metadata", Dict([])).Dict?)
      && (EnsureDocument(item).Some? ==> EnsureDocument(item).value.content == Get(e, "page_content", Str("")).s)
      && (!DocumentLike(e) ==> EnsureDocument(item) == Some(Document("", map[])))
    ensures item.ValueItem? && !item.v.Dict? ==> EnsureDocument(item) == Some(Document(Render(item.v), map[]))
  {
    if item.ValueItem? && item.v.Dict? && !DocumentLike(item.v.entries) {
      assert ToMap([]) == map[];
    }
  }
}
