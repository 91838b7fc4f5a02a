/** Ingestion of the incident export: the flat list of loaded records is
    de-duplicated, cut by position into incident details, at most four status
    counts and resolutions (the last record holds the incident count), and
    each group is rendered through its text template into documents tagged
    with their type. Decoding a record's JSON text is a parameter. */
module DataLoader {
  import opened Common
  import opened Text
  import opened PyValues
  import opened Documents

  // ----- text templates -----

  /** The fields the incident template lower-cases, with their defaults. */
  const LoweredFields: seq<(string, string)> := [
    ("incidentDescription", ""), ("stateOfTicket", ""), ("incidentAssignedTo", "no one"),
    ("severity_priority", ""), ("workNotes", ""), ("howItWasResolved", ""), ("incidentTag", "")]

  /** `d.get(key, default).lower()`: only a string has `lower`. */
  function LowerField(d: seq<(string, Value)>, key: string, default: string): (r: Result<string>)
    ensures r.Ok? <==> Get(d, key, Str(default)).Str?
    ensures r.Ok? ==> r.value == Lower(Get(d, key, Str(default)).s)
  {
    var v := Get(d, key, Str(default));
    if v.Str? then Ok(Lower(v.s))
    else Err(Exc(AttributeError, "'" + TypeName(v) + "' object has no attribute 'lower'"))
  }

  /** The lower-cased fields, evaluated left to right; the first that is not
      a string raises. */
  function LowerAll(d: seq<(string, Value)>, fields: seq<(string, string)>): (r: Result<seq<string>>)
    ensures r.Ok? <==> forall i :: 0 <= i < |fields| ==> Get(d, fields[i].0, Str(fields[i].1)).Str?
    ensures r.Ok? ==> |r.value| == |fields|
    ensures r.Ok? ==> forall i :: 0 <= i < |fields| ==> r.value[i] == Lower(Get(d, fields[i].0, Str(fields[i].1)).s)
    decreases |fields|
  {
    if fields == [] then Ok([])
    else
      match LowerField(d, fields[0].0, fields[0].1)
      case Err(e) => Err(e)
      case Ok(h) =>
        match LowerAll(d, fields[1..])
        case Err(e) =>
          var i :| 0 <= i < |fields[1..]| && !Get(d, fields[1..][i].0, Str(fields[1..][i].1)).Str?;
          assert fields[1..][i] == fields[i + 1];
          Err(e)
        case Ok(t) => Ok([h] + t)
  }

  /** Each line followed by a newline. */
  function Unlines(lines: seq<string>): string {
    if lines == [] then [] else lines[0] + "\n" + Unlines(lines[1..])
  }

  lemma {:induction false} UnlinesHasLine(lines: seq<string>, i: nat)
    requires i < |lines|
    ensures IsSubstring(lines[i] + "\n", Unlines(lines))
    decreases i
  {
    var rest := Unlines(lines[1..]);
    assert Unlines(lines) == (lines[0] + "\n") + rest;
    if i == 0 {
      IsSubstringAt(lines[0] + "\n", Unlines(lines), 0);
    } else {
      UnlinesHasLine(lines[1..], i - 1);
      IsSubstringConcat(lines[i] + "\n", lines[0] + "\n", rest);
    }
  }

  /** The eight lines of the incident template, given the incident number
      and the seven lower-cased fields. */
  function DetailsLines(number: string, l: seq<string>): (lines: seq<string>)
    requires |l| == 7
    ensures |lines| == 8
  {
    ["the incident number " + number,
     "has description: " + l[0],
     "with current state: " + l[1],
     "and is currently assigned to: " + l[2],
     "and has priority of: " + l[3],
     "and work notes provided for this incident number is: " + l[4],
     "resolution provided for this incident number " + number + " was: " + l[5],
     "This incident number: " + number + " has the tag " + l[6]]
  }

  /** The details text for incident `number` and the lower-cased fields `l`. */
  function DetailsOf(number: string, l: seq<string>): string
    requires |l| == 7
  {
    Unlines(DetailsLines(number, l))
  }

  /** `dict_to_text_on_incident_details(d)` */
  function IncidentDetailsText(d: seq<(string, Value)>): (r: Result<string>)
    ensures r.Ok? <==> forall i :: 0 <= i < |LoweredFields| ==> Get(d, LoweredFields[i].0, Str(LoweredFields[i].1)).Str?
  {
    match LowerAll(d, LoweredFields)
    case Err(e) => Err(e)
    case Ok(l) => Ok(DetailsOf(Render(Get(d, "incidentNumber", Str(""))), l))
  }

  const StateLabel := "count of incident number with state: "
  const CountLabel := "is: "
  const DescriptionLabel := "incident with description: "
  const StepsLabel := "was closed and fixed with these steps provided as: "

  /** `dict_to_text_on_incident_by_state_count(d)` */
  function StatusCountText(d: seq<(string, Value)>): string {
    (StateLabel + Render(Get(d, "incidentState", Str(""))) + "\n")
    + (CountLabel + Render(Get(d, "incidentByStateCount", Str(""))) + "\n")
  }

  /** `dict_to_text_incident_description_resolution(d)` */
  function ResolutionText(d: seq<(string, Value)>): string {
    (DescriptionLabel + Render(Get(d, "incidentDescription", Str(""))) + "\n")
    + (StepsLabel + Render(Get(d, "incidentResolution", Str(""))) + "\n")
  }

  /** A field written between a fixed prefix and the end of its line is
      determined by any text starting with that line, as long as the field
      holds no newline itself. */
  lemma {:induction false} LineFieldDetermined(p: string, a: string, b: string, t: string)
    requires '\n' !in a && '\n' !in b
    requires p + a + "\n" <= t && p + b + "\n" <= t
    ensures a == b
  {
    FieldNotShorter(p, a, b, t);
    FieldNotShorter(p, b, a, t);
    {
      assert a == (p + a + "\n")[|p|..|p| + |a|] == t[|p|..|p| + |a|] == (p + b + "\n")[|p|..|p| + |b|] == b;
    }
  }

  /** The field that ends its line first is the shorter one: a newline
      would otherwise sit inside the other. */
  lemma {:induction false} FieldNotShorter(p: string, a: string, b: string, t: string)
    requires '\n' !in b
    requires p + a + "\n" <= t && p + b + "\n" <= t
    ensures |b| <= |a|
  {
    NewlineAfter(p, a, t);
    assert forall k :: 0 <= k < |b| ==> t[|p| + k] == (p + b + "\n")[|p| + k] == b[k];
  }

  /** A line ends with its newline. */
  lemma NewlineAfter(p: string, a: string, t: string)
    requires p + a + "\n" <= t
    ensures |p| + |a| < |t| && t[|p| + |a|] == '\n'
  {
    assert (p + a + "\n")[|p| + |a|] == '\n';
  }

  /** A string is a prefix of itself followed by anything. */
  lemma PrefixOfConcat(x: string, y: string)
    ensures x <= x + y
  {
    assert (x + y)[..|x|] == x;
  }

  /** Unlike the incident text, the status-count text keeps the state as
      written: two single-line states that differ, in case or otherwise,
      give different texts. */
  lemma StatusCountKeepsCase(d: seq<(string, Value)>, e: seq<(string, Value)>)
    requires Get(d, "incidentState", Str("")).Str? && '\n' !in Get(d, "incidentState", Str("")).s
    requires Get(e, "incidentState", Str("")).Str? && '\n' !in Get(e, "incidentState", Str("")).s
    requires StatusCountText(d) == StatusCountText(e)
    ensures Get(d, "incidentState", Str("")) == Get(e, "incidentState", Str(""))
  {
    var p := StateLabel;
    var a := Get(d, "incidentState", Str("")).s;
    var b := Get(e, "incidentState", Str("")).s;
    PrefixOfConcat(p + a + "\n", CountLabel + Render(Get(d, "incidentByStateCount", Str(""))) + "\n");
    PrefixOfConcat(p + b + "\n", CountLabel + Render(Get(e, "incidentByStateCount", Str(""))) + "\n");
    LineFieldDetermined(p, a, b, StatusCountText(d));
  }

  /** Likewise the resolution text keeps the description as written. */
  lemma ResolutionKeepsCase(d: seq<(string, Value)>, e: seq<(string, Value)>)
    requires Get(d, "incidentDescription", Str("")).Str? && '\n' !in Get(d, "incidentDescription", Str("")).s
    requires Get(e, "incidentDescription", Str("")).Str? && '\n' !in Get(e, "incidentDescription", Str("")).s
    requires ResolutionText(d) == ResolutionText(e)
    ensures Get(d, "incidentDescription", Str("")) == Get(e, "incidentDescription", Str(""))
  {
    var p := DescriptionLabel;
    var a := Get(d, "incidentDescription", Str("")).s;
    var b := Get(e, "incidentDescription", Str("")).s;
    PrefixOfConcat(p + a + "\n", StepsLabel + Render(Get(d, "incidentResolution", Str(""))) + "\n");
    PrefixOfConcat(p + b + "\n", StepsLabel + Render(Get(e, "incidentResolution", Str(""))) + "\n");
    LineFieldDetermined(p, a, b, ResolutionText(d));
  }

  // ----- records, de-duplication and slicing -----

  /** The row `{"content": doc.page_content, **doc.metadata}`. */
  function RecordOf(d: Document): (rec: map<string, Value>)
    ensures "content" in rec
  {
    if "content" in d.metadata then d.metadata else d.metadata["content" := Str(d.content)]
  }

  /** The first value of a row: its `content` column, which comes first. */
  function FirstValue(rec: map<string, Value>): Value
    requires "content" in rec
  {
    rec["content"]
  }

  predicate NoDuplicates<T(==)>(s: seq<T>) {
    forall i, j :: 0 <= i < j < |s| ==> s[i] != s[j]
  }

  /** Position of the first occurrence of `x` in `s`. */
  function FirstIndex<T(==)>(s: seq<T>, x: T): (k: nat)
    requires x in s
    ensures k < |s| && s[k] == x && x !in s[..k]
  {
    if s[0] == x then 0 else 1 + FirstIndex(s[1..], x)
  }

  /** `drop_duplicates()`: the first occurrence of every row, in order. */
  function Dedup<T(==)>(s: seq<T>): (r: seq<T>)
    ensures |r| <= |s|
    ensures forall i :: 0 <= i < |r| ==> r[i] in s
    ensures forall i :: 0 <= i < |s| ==> s[i] in r
    ensures NoDuplicates(r)
    decreases |s|
  {
    if s == [] then []
    else
      var init := Dedup(s[..|s| - 1]);
      var last := s[|s| - 1];
      assert s == s[..|s| - 1] + [last];
      if last in init then init else init + [last]
  }

  /** The first occurrence is the one with no earlier occurrence. */
  lemma {:induction false} FirstIndexUnique<T>(s: seq<T>, x: T, k: nat)
    requires k < |s| && s[k] == x && x !in s[..k]
    ensures FirstIndex(s, x) == k
    decreases k
  {
    if k > 0 {
      assert s[0] in s[..k];
      assert s[1..][k - 1] == x && s[1..][..k - 1] == s[1..k];
      assert forall y :: y in s[1..k] ==> y in s[..k];
      FirstIndexUnique(s[1..], x, k - 1);
    }
  }

  lemma FirstIndexPrefix<T>(s: seq<T>, n: nat, x: T)
    requires n <= |s| && x in s[..n]
    ensures FirstIndex(s, x) == FirstIndex(s[..n], x)
  {
    var k := FirstIndex(s[..n], x);
    assert s[..n][..k] == s[..k];
    FirstIndexUnique(s, x, k);
  }

  /** The kept rows are in the order of their first occurrences. */
  lemma {:induction false} DedupKeepsFirstOrder<T>(s: seq<T>)
    ensures forall i, j :: 0 <= i < j < |Dedup(s)| ==> FirstIndex(s, Dedup(s)[i]) < FirstIndex(s, Dedup(s)[j])
    decreases |s|
  {
    if s != [] {
      DedupKeepsFirstOrder(s[..|s| - 1]);
      DedupOrderStep(s);
    }
  }

  /** One more row keeps the order of first occurrences: the rows kept so
      far keep their first positions, and a new row comes after them all. */
  lemma DedupOrderStep<T>(s: seq<T>)
    requires s != []
    requires var init := s[..|s| - 1];
      forall i, j :: 0 <= i < j < |Dedup(init)| ==> FirstIndex(init, Dedup(init)[i]) < FirstIndex(init, Dedup(init)[j])
    ensures forall i, j :: 0 <= i < j < |Dedup(s)| ==> FirstIndex(s, Dedup(s)[i]) < FirstIndex(s, Dedup(s)[j])
  {
    var init := s[..|s| - 1];
    forall x | x in init ensures FirstIndex(s, x) == FirstIndex(init, x) {
      FirstIndexPrefix(s, |s| - 1, x);
    }
    if s[|s| - 1] !in Dedup(init) {
      DedupOrderNew(s);
    }
  }

  /** A row seen for the first time is kept last and is first met last. */
  lemma DedupOrderNew<T>(s: seq<T>)
    requires s != [] && s[|s| - 1] !in Dedup(s[..|s| - 1])
    requires var init := s[..|s| - 1];
      forall i, j :: 0 <= i < j < |Dedup(init)| ==> FirstIndex(s, Dedup(init)[i]) < FirstIndex(s, Dedup(init)[j])
    requires forall x :: x in s[..|s| - 1] ==> FirstIndex(s, x) < |s| - 1
    ensures forall i, j :: 0 <= i < j < |Dedup(s)| ==> FirstIndex(s, Dedup(s)[i]) < FirstIndex(s, Dedup(s)[j])
  {
    var init := s[..|s| - 1];
    var r := Dedup(s);
    assert s[|s| - 1] !in init;
    FirstIndexUnique(s, s[|s| - 1], |s| - 1);
    forall i, j | 0 <= i < j < |r| ensures FirstIndex(s, r[i]) < FirstIndex(s, r[j]) {
      assert r[i] in init;
      if j < |r| - 1 { assert r[j] in init; }
    }
  }

  /** Rows that are already distinct are left as they are; in particular
      de-duplication is idempotent. */
  lemma {:induction false} DedupOfDistinct<T>(s: seq<T>)
    requires NoDuplicates(s)
    ensures Dedup(s) == s
    decreases |s|
  {
    if s != [] {
      var init := s[..|s| - 1];
      DedupOfDistinct(init);
      forall k | 0 <= k < |init| ensures init[k] != s[|s| - 1] {
        assert init[k] == s[k];
      }
      assert s == init + [s[|s| - 1]];
    }
  }

  /** Python's normalisation of a slice bound against a length `n`. */
  function Clamp(i: int, n: nat): (k: nat)
    ensures k <= n
  {
    if i < 0 then (if i + n < 0 then 0 else i + n) else if i > n then n else i
  }

  /** `s[lo:hi]`, negative bounds counting from the end. */
  function Slice<T>(s: seq<T>, lo: int, hi: int): seq<T> {
    var a := Clamp(lo, |s|);
    var b := Clamp(hi, |s|);
    if a < b then s[a..b] else []
  }

  /** A slice is a contiguous window of `s` ending no later than the clamped
      upper bound, and when `lo <= hi` it holds at most `hi - lo` elements. */
  lemma SliceWindow<T>(s: seq<T>, lo: int, hi: int)
    ensures exists a, b :: 0 <= a <= b <= Clamp(hi, |s|) && Slice(s, lo, hi) == s[a..b]
    ensures lo <= hi ==> |Slice(s, lo, hi)| <= hi - lo
  {
    var n := |s|;
    var a := Clamp(lo, n);
    var b := Clamp(hi, n);
    if a < b {
      assert Slice(s, lo, hi) == s[a..b];
      if lo <= hi {
        if lo < 0 && 0 <= hi {
          assert a == 0 || a == lo + n;
          assert b <= hi;
        }
      }
    } else {
      assert Slice(s, lo, hi) == s[b..b];
    }
  }

  /** The text `int()` accepts: an optionally signed run of digits, after
      surrounding whitespace is stripped. */
  function IntLiteral(s: string): (r: Option<int>)
    ensures IsDigits(Strip(s)) ==> r == Some(DigitsValue(Strip(s)))
    ensures r.Some? ==> Strip(s) != []
  {
    var t := Strip(s);
    if IsDigits(t) then Some(DigitsValue(t))
    else if |t| >= 2 && t[0] == '+' && IsDigits(t[1..]) then Some(DigitsValue(t[1..]))
    else if |t| >= 2 && t[0] == '-' && IsDigits(t[1..]) then var k: int := DigitsValue(t[1..]); Some(-k)
    else None
  }

  const InvalidLiteral := "invalid literal for int() with base 10: "
  const IntArgument := "int() argument must be a string, a bytes-like object or a real number, not '"

  /** `int(v)` on the count column. */
  function ParseInt(v: Value): (r: Result<int>)
    ensures v.Int? ==> r == Ok(v.i)
    ensures v.Str? ==> (r.Ok? <==> IntLiteral(v.s).Some?)
    ensures v.Null? || v.List? || v.Dict? ==> r.Err? && r.error.kind == TypeError
  {
    match v
    case Int(i) => Ok(i)
    case Bool(b) => Ok(if b then 1 else 0)
    case Str(s) =>
      (match IntLiteral(s)
       case Some(k) => Ok(k)
       case None => Err(Exc(ValueError, InvalidLiteral + Repr(v))))
    case _ => Err(Exc(TypeError, IntArgument + TypeName(v) + "'"))
  }

  /** `safe_json_loads(item)`: a string first value is decoded if it parses,
      kept as it is otherwise; any other value is returned unchanged. */
  function SafeJsonLoads(rec: map<string, Value>, decode: string -> Option<Value>): Value
    requires "content" in rec
  {
    var v := FirstValue(rec);
    if v.Str? then (match decode(v.s) case Some(x) => x case None => v) else v
  }

  /** The three groups of rows, by position around the count. */
  datatype Groups = Groups(incidents: seq<map<string, Value>>, counts: seq<map<string, Value>>,
                           resolutions: seq<map<string, Value>>)

  function Split(rows: seq<map<string, Value>>, count: int): Groups {
    Groups(Slice(rows, 0, count), Slice(rows, count, count + 4), Slice(rows, count + 4, |rows| - 1))
  }

  /** The status-count group never holds more than four rows, the resolution
      group never holds the trailing count row, and when the count leaves
      room for four status rows before it the groups tile every row but the
      last, in order. */
  lemma SplitProperties(rows: seq<map<string, Value>>, count: int)
    requires rows != []
    ensures |Split(rows, count).counts| <= 4
    ensures exists a, b :: 0 <= a <= b <= |rows| - 1 && Split(rows, count).resolutions == rows[a..b]
    ensures 0 <= count && count + 4 <= |rows| - 1 ==>
      Split(rows, count).incidents + Split(rows, count).counts + Split(rows, count).resolutions == rows[..|rows| - 1]
  {
    SliceWindow(rows, count, count + 4);
    SliceWindow(rows, count + 4, |rows| - 1);
    if 0 <= count && count + 4 <= |rows| - 1 {
      var n := |rows| - 1;
      if count == 0 {
        assert Slice(rows, 0, count) == [];
      }
      if count + 4 == n {
        assert Slice(rows, count + 4, n) == [];
      }
      assert rows[..n] == rows[..count] + rows[count..count + 4] + rows[count + 4..n];
    }
  }

  /** With fewer than four status rows the count row itself falls into the
      status-count group (where the loader skips it unless it decodes to a
      dictionary). */
  lemma CountRowInStatusGroup(rows: seq<map<string, Value>>, count: int)
    requires 0 <= count < |rows| && |rows| - 1 < count + 4
    ensures rows[|rows| - 1] in Split(rows, count).counts
  {
    assert Split(rows, count).counts == rows[count..|rows|];
    assert rows[count..|rows|][|rows| - 1 - count] == rows[|rows| - 1];
  }

  // ----- documents -----

  /** The incident metadata: number, description, work notes and resolution
      verbatim, status, assignee and tags lower-cased. */
  function IncidentMetadata(d: seq<(string, Value)>, status: string, assignee: string, tags: string): (m: map<string, Value>)
    ensures HasMeta(Document("", m), "type", "incident_details")
    ensures "incident_number" in m && m["incident_number"] == Get(d, "incidentNumber", Str(""))
    ensures "status" in m && m["status"] == Str(Lower(status))
    ensures "assigned_to" in m && m["assigned_to"] == Str(Lower(assignee))
    ensures "tags" in m && m["tags"] == Str(Lower(tags))
  {
    map[
      "incident_number" := Get(d, "incidentNumber", Str("")),
      "incident_description" := Get(d, "incidentDescription", Str("")),
      "status" := Str(Lower(status)),
      "assigned_to" := Str(Lower(assignee)),
      "work_notes" := Get(d, "workNotes", Str("")),
      "resolution" := Get(d, "howItWasResolved", Str("")),
      "tags" := Str(Lower(tags)),
      "type" := Str("incident_details"),
      "source" := Str("incident_data")]
  }

  function NoAttribute(v: Value, attribute: string): Exc {
    Exc(AttributeError, "'" + TypeName(v) + "' object has no attribute '" + attribute + "'")
  }

  /** The incident document for one decoded row; a row that is not a
      dictionary, or a lower-cased field that is not a string, raises. */
  function IncidentDoc(item: Value): (r: Result<Document>)
    ensures r.Ok? ==> item.Dict?
  {
    if !item.Dict? then Err(NoAttribute(item, "get"))
    else
      var d := item.entries;
      match IncidentDetailsText(d)
      case Err(e) => Err(e)
      case Ok(text) =>
        var status := Get(d, "stateOfTicket", Str(""));
        var assignee := Get(d, "incidentAssignedTo", Str(""));
        var tags := Get(d, "incidentTag", Str(""));
        if !status.Str? then Err(NoAttribute(status, "lower"))
        else if !assignee.Str? then Err(NoAttribute(assignee, "lower"))
        else if !tags.Str? then Err(NoAttribute(tags, "lower"))
        else Ok(Document(text, IncidentMetadata(d, status.s, assignee.s, tags.s)))
  }

  function StatusCountDoc(d: seq<(string, Value)>): (doc: Document)
    ensures HasMeta(doc, "type", "incident_status_count")
  {
    Document(StatusCountText(d), map[
      "type" := Str("incident_status_count"),
      "incidentStatus" := Str(Render(Get(d, "incidentState", Str("")))),
      "incidentByStatusCount" := Str(Render(Get(d, "incidentByStateCount", Str(""))))])
  }

  function ResolutionDoc(d: seq<(string, Value)>): (doc: Document)
    ensures HasMeta(doc, "type", "incident_resolution")
  {
    Document(ResolutionText(d), map[
      "type" := Str("incident_resolution"),
      "incidentDescription" := Str(Render(Get(d, "incidentDescription", Str("")))),
      "incidentResolution" := Str(Render(Get(d, "incidentResolution", Str(""))))])
  }

  /** The incident documents of the decoded rows; the first failure raises. */
  function MadeDocs(items: seq<Value>, make: Value -> Result<Document>): Result<seq<Document>>
    decreases |items|
  {
    if items == [] then Ok([])
    else
      match MadeDocs(items[..|items| - 1], make)
      case Err(e) => Err(e)
      case Ok(ds) =>
        match make(items[|items| - 1])
        case Err(e) => Err(e)
        case Ok(d) => Ok(ds + [d])
  }

  /** The documents of the dictionary rows of a group; other rows are
      skipped. */
  function DictDocs(items: seq<Value>, make: seq<(string, Value)> -> Document): (ds: seq<Document>)
    ensures |ds| <= |items|
    decreases |items|
  {
    if items == [] then []
    else
      var last := items[|items| - 1];
      DictDocs(items[..|items| - 1], make) + (if last.Dict? then [make(last.entries)] else [])
  }

  function Decoded(rows: seq<map<string, Value>>, decode: string -> Option<Value>): (vs: seq<Value>)
    requires forall i :: 0 <= i < |rows| ==> "content" in rows[i]
    ensures |vs| == |rows|
  {
    seq(|rows|, i requires 0 <= i < |rows| => SafeJsonLoads(rows[i], decode))
  }

  /** The input documents, through `ensure_document`; one that cannot be
      built raises. */
  function EnsureAll(items: seq<Item>, invalid: Exc): Result<seq<Document>>
    decreases |items|
  {
    if items == [] then Ok([])
    else
      match EnsureAll(items[..|items| - 1], invalid)
      case Err(e) => Err(e)
      case Ok(ds) =>
        match EnsureDocument(items[|items| - 1])
        case None => Err(invalid)
        case Some(d) => Ok(ds + [d])
  }

  function Rows(docs: seq<Document>): (rows: seq<map<string, Value>>)
    ensures |rows| == |docs| && forall i :: 0 <= i < |rows| ==> "content" in rows[i]
  {
    seq(|docs|, i requires 0 <= i < |docs| => RecordOf(docs[i]))
  }

  /** `process_incident_data(documents)` as a function of its inputs;
      `invalid` is the error the document type raises on a malformed item. */
  function Process(items: seq<Item>, decode: string -> Option<Value>, invalid: Exc): Result<seq<Document>> {
    match EnsureAll(items, invalid)
    case Err(e) => Err(e)
    case Ok(docs) =>
      var rows := Dedup(Rows(docs));
      if rows == [] then Err(Exc(IndexError, "list index out of range"))
      else
        assert rows[|rows| - 1] in Rows(docs);
        match ParseInt(FirstValue(rows[|rows| - 1]))
        case Err(e) => Err(e)
        case Ok(count) =>
          SplitRows(rows, count);
          Assemble(Split(rows, count), decode)
  }

  predicate HasContent(g: Groups) {
    && (forall i :: 0 <= i < |g.incidents| ==> "content" in g.incidents[i])
    && (forall i :: 0 <= i < |g.counts| ==> "content" in g.counts[i])
    && (forall i :: 0 <= i < |g.resolutions| ==> "content" in g.resolutions[i])
  }

  /** The three groups decoded and rendered, in group order. */
  function Assemble(g: Groups, decode: string -> Option<Value>): Result<seq<Document>>
    requires HasContent(g)
  {
    match MadeDocs(Decoded(g.incidents, decode), IncidentDoc)
    case Err(e) => Err(e)
    case Ok(incidentDocs) =>
      Ok(incidentDocs + DictDocs(Decoded(g.counts, decode), StatusCountDoc)
         + DictDocs(Decoded(g.resolutions, decode), ResolutionDoc))
  }

  lemma SplitRows(rows: seq<map<string, Value>>, count: int)
    requires forall i :: 0 <= i < |rows| ==> "content" in rows[i]
    ensures HasContent(Split(rows, count))
  {
    SliceWindow(rows, 0, count);
    SliceWindow(rows, count, count + 4);
    SliceWindow(rows, count + 4, |rows| - 1);
  }

  /** The incident loop: one document per decoded row, stopping at the first
      row that raises. */
  method BuildIncidentDocs(items: seq<Value>, make: Value -> Result<Document>) returns (r: Result<seq<Document>>)
    ensures r == MadeDocs(items, make)
  {
    var docs: seq<Document> := [];
    var i := 0;
    while i < |items|
      invariant 0 <= i <= |items|
      invariant MadeDocs(items[..i], make) == Ok(docs)
    {
      assert items[..i + 1][..i] == items[..i];
      var d := make(items[i]);
      if d.Err? {
        MadeDocsErrSticky(items, i + 1, make);
        return Err(d.error);
      }
      docs := docs + [d.value];
      i := i + 1;
    }
    assert items[..i] == items;
    r := Ok(docs);
  }

  /** Once a prefix raises, the whole list raises with the same error. */
  lemma {:induction false} MadeDocsErrSticky(items: seq<Value>, n: nat, make: Value -> Result<Document>)
    requires n <= |items| && MadeDocs(items[..n], make).Err?
    ensures MadeDocs(items, make) == MadeDocs(items[..n], make)
    decreases |items| - n
  {
    if n < |items| {
      assert items[..n + 1][..n] == items[..n];
      MadeDocsErrSticky(items, n + 1, make);
    } else {
      assert items[..n] == items;
    }
  }

  /** The status-count and resolution loops: non-dictionary rows skipped. */
  method BuildDictDocs(items: seq<Value>, make: seq<(string, Value)> -> Document) returns (docs: seq<Document>)
    ensures docs == DictDocs(items, make)
  {
    docs := [];
    var i := 0;
    while i < |items|
      invariant 0 <= i <= |items|
      invariant docs == DictDocs(items[..i], make)
    {
      assert items[..i + 1][..i] == items[..i];
      if items[i].Dict? {
        docs := docs + [make(items[i].entries)];
      }
      i := i + 1;
    }
    assert items[..i] == items;
  }

  /** `process_incident_data(documents)`. */
  method ProcessIncidentData(items: seq<Item>, decode: string -> Option<Value>, invalid: Exc)
    returns (r: Result<seq<Document>>)
    ensures r == Process(items, decode, invalid)
  {
    var ensured := EnsureAll(items, invalid);
    if ensured.Err? {
      return Err(ensured.error);
    }
    var rows := Dedup(Rows(ensured.value));
    if rows == [] {
      return Err(Exc(IndexError, "list index out of range"));
    }
    assert rows[|rows| - 1] in Rows(ensured.value);
    var count := ParseInt(FirstValue(rows[|rows| - 1]));
    if count.Err? {
      return Err(count.error);
    }
    SplitRows(rows, count.value);
    r := AssembleGroups(Split(rows, count.value), decode);
  }

  /** The three document loops and their concatenation. */
  method AssembleGroups(g: Groups, decode: string -> Option<Value>) returns (r: Result<seq<Document>>)
    requires HasContent(g)
    ensures r == Assemble(g, decode)
  {
    var incidentDocs := BuildIncidentDocs(Decoded(g.incidents, decode), IncidentDoc);
    if incidentDocs.Err? {
      return Err(incidentDocs.error);
    }
    var countDocs := BuildDictDocs(Decoded(g.counts, decode), StatusCountDoc);
    var resolutionDocs := BuildDictDocs(Decoded(g.resolutions, decode), ResolutionDoc);
    r := Ok(incidentDocs.value + countDocs + resolutionDocs);
  }

  // ----- properties -----

  /** An empty input raises when the count is read. */
  lemma EmptyInputRaises(decode: string -> Option<Value>, invalid: Exc)
    ensures Process([], decode, invalid) == Err(Exc(IndexError, "list index out of range"))
  {
    assert Rows([]) == [];
  }

  lemma {:induction false} DictDocsTagged(items: seq<Value>, make: seq<(string, Value)> -> Document, tag: string)
    requires forall d :: HasMeta(make(d), "type", tag)
    ensures forall i :: 0 <= i < |DictDocs(items, make)| ==> HasMeta(DictDocs(items, make)[i], "type", tag)
    decreases |items|
  {
    if items != [] {
      DictDocsTagged(items[..|items| - 1], make, tag);
    }
  }

  lemma {:induction false} MadeDocsTagged(items: seq<Value>, make: Value -> Result<Document>, tag: string)
    requires forall v :: make(v).Ok? ==> HasMeta(make(v).value, "type", tag)
    ensures MadeDocs(items, make).Ok? ==>
      |MadeDocs(items, make).value| == |items|
      && forall i :: 0 <= i < |items| ==> HasMeta(MadeDocs(items, make).value[i], "type", tag)
    decreases |items|
  {
    if items != [] {
      MadeDocsTagged(items[..|items| - 1], make, tag);
    }
  }

  /** Every incident document is typed `incident_details`. */
  lemma IncidentDocTagged()
    ensures forall v :: IncidentDoc(v).Ok? ==> HasMeta(IncidentDoc(v).value, "type", "incident_details")
  {
  }

  /** The first `a` documents are incident details, the next ones up to `b`
      status counts, the rest resolutions. */
  predicate TaggedInOrder(out: seq<Document>, a: nat, b: nat) {
    && a <= b <= |out|
    && (forall i :: 0 <= i < a ==> HasMeta(out[i], "type", "incident_details"))
    && (forall i :: a <= i < b ==> HasMeta(out[i], "type", "incident_status_count"))
    && (forall i :: b <= i < |out| ==> HasMeta(out[i], "type", "incident_resolution"))
  }

  lemma TaggedConcat(x: seq<Document>, y: seq<Document>, z: seq<Document>)
    requires forall i :: 0 <= i < |x| ==> HasMeta(x[i], "type", "incident_details")
    requires forall i :: 0 <= i < |y| ==> HasMeta(y[i], "type", "incident_status_count")
    requires forall i :: 0 <= i < |z| ==> HasMeta(z[i], "type", "incident_resolution")
    ensures TaggedInOrder(x + y + z, |x|, |x| + |y|)
  {
  }

  /** The output is the incident documents, then at most four status-count
      documents, then the resolution documents, each tagged with its type. */
  lemma ProcessOutput(items: seq<Item>, decode: string -> Option<Value>, invalid: Exc)
    requires Process(items, decode, invalid).Ok?
    ensures var out := Process(items, decode, invalid).value;
      exists a: nat, b: nat :: b - a <= 4 && TaggedInOrder(out, a, b)
  {
    var docs := EnsureAll(items, invalid).value;
    var rows := Dedup(Rows(docs));
    assert rows[|rows| - 1] in Rows(docs);
    var count := ParseInt(FirstValue(rows[|rows| - 1])).value;
    SplitRows(rows, count);
    SplitProperties(rows, count);
    assert Process(items, decode, invalid) == Assemble(Split(rows, count), decode);
    AssembleOutput(Split(rows, count), decode);
  }

  lemma AssembleOutput(g: Groups, decode: string -> Option<Value>)
    requires HasContent(g) && |g.counts| <= 4 && Assemble(g, decode).Ok?
    ensures exists a: nat, b: nat :: b - a <= 4 && TaggedInOrder(Assemble(g, decode).value, a, b)
  {
    var inc := Decoded(g.incidents, decode);
    var cs := Decoded(g.counts, decode);
    var rs := Decoded(g.resolutions, decode);
    IncidentDocTagged();
    MadeDocsTagged(inc, IncidentDoc, "incident_details");
    var x := MadeDocs(inc, IncidentDoc).value;
    var y := DictDocs(cs, StatusCountDoc);
    var z := DictDocs(rs, ResolutionDoc);
    DictDocsTagged(cs, StatusCountDoc, "incident_status_count");
    DictDocsTagged(rs, ResolutionDoc, "incident_resolution");
    TaggedConcat(x, y, z);
    assert |y| <= 4;
  }

  /** The status, assignee and tags metadata are lower-case, while the
      incident number is stored exactly as given. */
  lemma IncidentMetadataCase(item: Value)
    requires IncidentDoc(item).Ok?
    ensures var m := IncidentDoc(item).value.metadata;
      && "incident_number" in m && m["incident_number"] == Get(item.entries, "incidentNumber", Str(""))
      && "status" in m && m["status"].Str? && Lower(m["status"].s) == m["status"].s
      && "assigned_to" in m && m["assigned_to"].Str? && Lower(m["assigned_to"].s) == m["assigned_to"].s
      && "tags" in m && m["tags"].Str? && Lower(m["tags"].s) == m["tags"].s
  {
    var d := item.entries;
    var status := Get(d, "stateOfTicket", Str("")).s;
    var assignee := Get(d, "incidentAssignedTo", Str("")).s;
    var tags := Get(d, "incidentTag", Str("")).s;
    assert IncidentDoc(item).value.metadata == IncidentMetadata(d, status, assignee, tags);
    LowerIdempotent(status);
    LowerIdempotent(assignee);
    LowerIdempotent(tags);
  }

  /** Lower-casing makes the incident text blind to the case of the seven
      lower-cased fields: two rows with the same incident number whose
      lower-cased fields agree once lower-cased give the same text. */
  lemma DetailsTextIgnoresCase(d: seq<(string, Value)>, e: seq<(string, Value)>)
    requires Get(d, "incidentNumber", Str("")) == Get(e, "incidentNumber", Str(""))
    requires forall i :: 0 <= i < |LoweredFields| ==>
      var x := Get(d, LoweredFields[i].0, Str(LoweredFields[i].1));
      var y := Get(e, LoweredFields[i].0, Str(LoweredFields[i].1));
      x.Str? && y.Str? && Lower(x.s) == Lower(y.s)
    ensures IncidentDetailsText(d) == IncidentDetailsText(e)
  {
    LowerAllAgree(d, e, LoweredFields);
  }

  /** Fields that agree once lower-cased lower-case to the same list. */
  lemma LowerAllAgree(d: seq<(string, Value)>, e: seq<(string, Value)>, fields: seq<(string, string)>)
    requires forall i :: 0 <= i < |fields| ==>
      var x := Get(d, fields[i].0, Str(fields[i].1));
      var y := Get(e, fields[i].0, Str(fields[i].1));
      x.Str? && y.Str? && Lower(x.s) == Lower(y.s)
    ensures LowerAll(d, fields) == LowerAll(e, fields)
  {
    assert LowerAll(d, fields).value == LowerAll(e, fields).value;
  }

  /** A row without an assignee renders "no one" on the assignee line. */
  lemma DetailsMissingAssignee(d: seq<(string, Value)>)
    requires "incidentAssignedTo" !in Keys(d) && IncidentDetailsText(d).Ok?
    ensures IsSubstring("and is currently assigned to: no one\n", IncidentDetailsText(d).value)
  {
    AssigneeDefault(d);
    var l := LowerAll(d, LoweredFields).value;
    DetailsOfHasAssignee(Render(Get(d, "incidentNumber", Str(""))), l);
  }

  lemma DetailsOfHasAssignee(n: string, l: seq<string>)
    requires |l| == 7 && l[2] == "no one"
    ensures IsSubstring("and is currently assigned to: no one\n", DetailsOf(n, l))
  {
    var lines := DetailsLines(n, l);
    UnlinesHasLine(lines, 3);
    AssigneeLine(lines[3], l[2]);
  }

  lemma AssigneeDefault(d: seq<(string, Value)>)
    requires "incidentAssignedTo" !in Keys(d) && LowerAll(d, LoweredFields).Ok?
    ensures LowerAll(d, LoweredFields).value[2] == "no one"
  {
    assert LoweredFields[2] == ("incidentAssignedTo", "no one");
    assert Get(d, "incidentAssignedTo", Str("no one")) == Str("no one");
    NoOneIsLower();
  }

  lemma AssigneeLine(line: string, assignee: string)
    requires assignee == "no one" && line == "and is currently assigned to: " + assignee
    ensures line + "\n" == "and is currently assigned to: no one\n"
  {
  }

  lemma NoOneIsLower()
    ensures Lower("no one") == "no one"
  {
    var s := "no one";
    assert forall i :: 0 <= i < |s| ==> LowerChar(s[i]) == s[i];
  }

  /** The incident number is written verbatim, not lower-cased, on the
      first, seventh and eighth lines. */
  lemma DetailsNumberVerbatim(d: seq<(string, Value)>)
    requires IncidentDetailsText(d).Ok?
    ensures var n := Render(Get(d, "incidentNumber", Str("")));
      && IsSubstring("the incident number " + n + "\n", IncidentDetailsText(d).value)
      && IsSubstring("This incident number: " + n + " has the tag ", IncidentDetailsText(d).value)
  {
    DetailsOfHasNumber(Render(Get(d, "incidentNumber", Str(""))), LowerAll(d, LoweredFields).value);
  }

  lemma DetailsOfHasNumber(n: string, l: seq<string>)
    requires |l| == 7
    ensures IsSubstring("the incident number " + n + "\n", DetailsOf(n, l))
    ensures IsSubstring("This incident number: " + n + " has the tag ", DetailsOf(n, l))
  {
    var lines := DetailsLines(n, l);
    UnlinesHasLine(lines, 0);
    UnlinesHasLine(lines, 7);
    var tagPrefix := "This incident number: " + n + " has the tag ";
    assert lines[7] + "\n" == tagPrefix + (l[6] + "\n");
    SubstringOfPrefix(tagPrefix, lines[7] + "\n", Unlines(lines));
  }

  /** A prefix of a substring is a substring. */
  lemma {:induction false} SubstringOfPrefix(p: string, sub: string, s: string)
    requires p <= sub && IsSubstring(sub, s)
    ensures IsSubstring(p, s)
    decreases |s|
  {
    if !(sub <= s) {
      SubstringOfPrefix(p, sub, s[1..]);
    }
  }
}
