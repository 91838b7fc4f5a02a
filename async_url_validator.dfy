/** `AsyncURLValidator`: the same prechecks, routing and response checks
    as the synchronous validator, with every outcome built by
    `_create_result` and every exception turned into a 'Validation Error'
    result; and `validate_urls`, which awaits the per-URL tasks in
    consecutive chunks of the concurrency limit. The chunks are modelled
    one after another: what is kept is the order of results and of the
    pauses, not the overlap of requests inside a chunk. */
module AsyncUrlValidator {
  import opened Common
  import opened Text
  import opened PyValues
  import opened ResponseChecks
  import UrlValidator

  /** A result dictionary: the ticket, the verdict, the status and detail
      texts, and the parsed response (`None` when there is none). */
  datatype Outcome = Outcome(ticket: string, valid: bool, status: string, details: string, responseData: Value)

  const ResultKeys: seq<string> := ["ticket", "valid", "status", "details", "response_data"]

  /** The dictionary `_create_result` builds for an outcome. */
  function AsDict(o: Outcome): Value {
    Dict([("ticket", Str(o.ticket)), ("valid", Bool(o.valid)), ("status", Str(o.status)),
          ("details", Str(o.details)), ("response_data", o.responseData)])
  }

  /** Every result has exactly the five keys, in this order. */
  lemma AsDictKeys(o: Outcome)
    ensures AsDict(o).Dict? && Keys(AsDict(o).entries) == ResultKeys
  {
    var e := AsDict(o).entries;
    assert Keys(e) == [e[0].0] + Keys(e[1..]);
    assert e[1..] == [e[1]] + e[2..];
    assert Keys(e[1..]) == [e[1].0] + Keys(e[2..]);
  }

  /** `_create_result(ticket, valid, status, details, response_data)`; the
      response data defaults to `None`. */
  function CreateResult(ticket: string, valid: bool, status: string, details: string, responseData: Value): Outcome {
    Outcome(ticket, valid, status, details, responseData)
  }

  /** `_validate_generic_url` on the reply to its GET. */
  function GenericResult(ticket: string, reply: HttpReply): Outcome {
    match reply
    case Unreachable(timedOut, message) =>
      if timedOut then CreateResult(ticket, false, "Timeout", "Request timed out", Null)
      else CreateResult(ticket, false, "Connection Error", message, Null)
    case Reply(status, _, _, _) =>
      if status == 200 then CreateResult(ticket, true, "Active", "URL is accessible (200 OK)", Null)
      else CreateResult(ticket, false, "HTTP " + IntToString(status), "Received status code: " + IntToString(status), Null)
  }

  /** A character of `[\w.+-]`, ASCII only. */
  predicate MimeChar(c: char) {
    IsLetter(c) || IsDigit(c) || c == '_' || c == '.' || c == '+' || c == '-'
  }

  /** What follows `application/` in a JSON media type: `json`, or a run
      of `[\w.+-]` ending in `+` and then `json` (`vnd.api+json`); anything
      may follow, as the test is a prefix match. */
  predicate JsonSubtype(r: string) {
    || "json" <= r
    || exists j :: 1 <= j < |r| && r[j] == '+' && "json" <= r[j + 1..] && forall x :: 0 <= x < j ==> MimeChar(r[x])
  }

  /** The check `response.json()` makes on the lower-cased `Content-Type`
      before reading the body: `^application/(?:[\w.+-]+?\+)?json`. */
  predicate JsonMimetype(ct: string) {
    "application/" <= ct && JsonSubtype(ct[12..])
  }

  const MimetypeMessage := "Attempt " + "to decode " + "JSON with " + "unexpected " + "mimetype: "

  /** `str()` of the `ContentTypeError` `response.json()` raises: the status,
      the message as `repr` writes it, and the URL, whose own `repr` always
      uses single quotes. */
  function ContentTypeErrorText(status: int, ct: string, url: string): string {
    IntToString(status) + ", message=" + StrRepr(MimetypeMessage + ct) + ", url=URL('" + url + "')"
  }

  /** Printable text with neither quote nor backslash: `repr` keeps it as it is. */
  predicate Plain(s: string) {
    forall i :: 0 <= i < |s| ==> IsPrintable(s[i]) && s[i] != '\\' && s[i] != '\'' && s[i] != '"'
  }

  lemma MimetypeMessagePlain()
    ensures Plain(MimetypeMessage)
  {
    var a, b, c, d := "Attempt ", "to decode ", "JSON with ", "unexpected ";
    assert Plain(a) && Plain(b) && Plain(c) && Plain(d) && Plain("mimetype: ");
    PlainConcat(a, b);
    PlainConcat(a + b, c);
    PlainConcat(a + b + c, d);
    PlainConcat(a + b + c + d, "mimetype: ");
  }

  lemma PlainConcat(a: string, b: string)
    requires Plain(a) && Plain(b)
    ensures Plain(a + b)
  {
    forall i | 0 <= i < |a + b|
      ensures IsPrintable((a + b)[i]) && (a + b)[i] != '\\' && (a + b)[i] != '\'' && (a + b)[i] != '"'
    {
      if i >= |a| {
        assert (a + b)[i] == b[i - |a|];
      }
    }
  }

  lemma PlainPrefix(p: string, s: string, i: nat)
    requires Plain(p) && |p| <= i < |p + s|
    ensures (p + s)[i] == s[i - |p|]
  {
  }

  /** A `Content-Type` holding a single quote and no double quote puts the
      message between double quotes, and what stands between them reads
      back as the message with that header. */
  lemma ContentTypeErrorDoubleQuoted(status: int, ct: string, url: string) returns (m: string)
    requires '\'' in ct && '"' !in ct
    ensures ContentTypeErrorText(status, ct, url) == IntToString(status) + ", message=" + "\"" + m + "\"" + ", url=URL('" + url + "')"
    ensures Unescape(m) == Some(MimetypeMessage + ct)
  {
    MimetypeMessageQuotes(ct);
    m := DoubleQuotedRepr(MimetypeMessage + ct);
  }

  lemma DoubleQuotedRepr(msg: string) returns (m: string)
    requires QuoteFor(msg) == '"'
    ensures StrRepr(msg) == "\"" + m + "\"" && Unescape(m) == Some(msg)
  {
    var r := StrRepr(msg);
    m := r[1..|r| - 1];
    StrReprRoundTrip(msg);
    assert r == ['"'] + m + ['"'];
  }

  lemma MimetypeMessageQuotes(ct: string)
    requires '\'' in ct && '"' !in ct
    ensures QuoteFor(MimetypeMessage + ct) == '"'
  {
    var p, msg := MimetypeMessage, MimetypeMessage + ct;
    MimetypeMessagePlain();
    var i :| 0 <= i < |ct| && ct[i] == '\'';
    PlainPrefix(p, ct, |p| + i);
    assert '\'' in msg;
    forall j | 0 <= j < |msg|
      ensures msg[j] != '"'
    {
      if j >= |p| {
        PlainPrefix(p, ct, j);
      }
    }
  }

  /** A printable `Content-Type` without quotes or backslashes, such as
      `text/html; charset=utf-8`, keeps the message between single quotes
      as it is. */
  lemma ContentTypeErrorPlain(status: int, ct: string, url: string)
    requires forall i :: 0 <= i < |ct| ==> IsPrintable(ct[i]) && ct[i] != '\\' && ct[i] != '\''
    ensures ContentTypeErrorText(status, ct, url)
      == IntToString(status) + ", message=" + "'" + MimetypeMessage + ct + "'" + ", url=URL('" + url + "')"
  {
    var p, msg := MimetypeMessage, MimetypeMessage + ct;
    MimetypeMessagePlain();
    forall i | 0 <= i < |msg|
      ensures IsPrintable(msg[i]) && msg[i] != '\\' && msg[i] != '\''
    {
      if i >= |p| {
        PlainPrefix(p, ct, i);
      }
    }
    StrReprPlain(msg);
  }

  /** The typed validators on the reply to their GET: anything but status
      200 fails with the status, and every exception (no response, a
      `Content-Type` that is not JSON, a body that does not parse, a check
      that raised) is a 'Validation Error'.  A body that is only
      whitespace parses as `None`. */
  function TypedResult(k: Kind, url: string, ticket: string, reply: HttpReply, today: Date, parse: DateParser): Outcome
    requires k != Generic
  {
    match reply
    case Unreachable(_, message) => CreateResult(ticket, false, "Validation Error", message, Null)
    case Reply(status, _, contentType, body) =>
      if status != 200 then
        CreateResult(ticket, false, "HTTP " + IntToString(status), "Received status code: " + IntToString(status), Null)
      else if !JsonMimetype(Lower(contentType)) then
        CreateResult(ticket, false, "Validation Error", ContentTypeErrorText(status, Lower(contentType), url), Null)
      else match body
        case NotJson(message) => CreateResult(ticket, false, "Validation Error", message, Null)
        case Empty => Checked(k, ticket, Null, today, parse)
        case Json(v) => Checked(k, ticket, v, today, parse)
  }

  /** The result of a typed check on the parsed body `v`. */
  function Checked(k: Kind, ticket: string, v: Value, today: Date, parse: DateParser): Outcome
    requires k != Generic
  {
    match FindingFor(k, v, today, parse)
    case Err(e) => CreateResult(ticket, false, "Validation Error", e.message, Null)
    case Ok(Failure(status, details)) => CreateResult(ticket, false, status, details, v)
    case Ok(Completed(valid, status, details)) => CreateResult(ticket, valid, status, details, v)
  }

  /** `_validate_single_url(session, url, url_type, ticket)` */
  function ValidateSingle(url: string, urlType: string, ticket: string, fetch: Fetch, today: Date, parse: DateParser): (r: Outcome)
    ensures r.ticket == ticket
    ensures Precheck(url).Some? ==> r == CreateResult(ticket, false, Precheck(url).value.0, Precheck(url).value.1, Null)
  {
    match Precheck(url)
    case Some(rejection) => CreateResult(ticket, false, rejection.0, rejection.1, Null)
    case None =>
      var k := Route(urlType);
      if k == Generic then GenericResult(ticket, fetch(url))
      else TypedResult(k, url, ticket, fetch(url), today, parse)
  }

  /** Whatever the typed validators meet, a status other than 200 gives an
      invalid result naming it. */
  lemma Non200Fails(url: string, urlType: string, ticket: string, fetch: Fetch, today: Date, parse: DateParser)
    requires Precheck(url).None? && fetch(url).Reply? && fetch(url).status != 200
    ensures var s := IntToString(fetch(url).status);
      ValidateSingle(url, urlType, ticket, fetch, today, parse)
        == CreateResult(ticket, false, "HTTP " + s, "Received status code: " + s, Null)
  {
  }

  /** A typed check that raised becomes a 'Validation Error' result
      carrying the exception's text, for that ticket only. */
  lemma RaisedCheckIsValidationError(url: string, urlType: string, ticket: string, fetch: Fetch, today: Date, parse: DateParser)
    requires Precheck(url).None? && Route(urlType) != Generic
    requires fetch(url).Reply? && fetch(url).status == 200 && fetch(url).body.Json?
    requires JsonMimetype(Lower(fetch(url).contentType))
    requires FindingFor(Route(urlType), fetch(url).body.v, today, parse).Err?
    ensures ValidateSingle(url, urlType, ticket, fetch, today, parse)
      == CreateResult(ticket, false, "Validation Error", FindingFor(Route(urlType), fetch(url).body.v, today, parse).error.message, Null)
  {
  }

  /** A failure found in the response text carries the parsed response. */
  lemma FailureCarriesResponse(url: string, urlType: string, ticket: string, fetch: Fetch, today: Date, parse: DateParser)
    requires Precheck(url).None? && Route(urlType) != Generic
    requires fetch(url).Reply? && fetch(url).status == 200 && fetch(url).body.Json?
    requires JsonMimetype(Lower(fetch(url).contentType))
    requires FindingFor(Route(urlType), fetch(url).body.v, today, parse).Ok?
    requires FindingFor(Route(urlType), fetch(url).body.v, today, parse).value.Failure?
    ensures ValidateSingle(url, urlType, ticket, fetch, today, parse).responseData == fetch(url).body.v
    ensures !ValidateSingle(url, urlType, ticket, fetch, today, parse).valid
  {
  }

  /** A typed URL answering 200 with a `Content-Type` that is not JSON is
      a 'Validation Error' here, whatever its body; the synchronous
      validator parses the body regardless. */
  lemma ContentTypeChecked(url: string, urlType: string, ticket: string, fetch: Fetch, today: Date, parse: DateParser)
    requires Precheck(url).None? && Route(urlType) != Generic
    requires fetch(url).Reply? && fetch(url).status == 200 && !JsonMimetype(Lower(fetch(url).contentType))
    ensures ValidateSingle(url, urlType, ticket, fetch, today, parse)
      == CreateResult(ticket, false, "Validation Error", ContentTypeErrorText(200, Lower(fetch(url).contentType), url), Null)
  {
  }

  /** The usual JSON media types pass the `Content-Type` check, with or
      without parameters; HTML and a missing header do not. */
  lemma MimetypeExamples()
    ensures JsonMimetype("application/json") && JsonMimetype("application/json; charset=utf-8")
    ensures JsonMimetype("application/vnd.api+json")
    ensures !JsonMimetype("text/html") && !JsonMimetype("")
  {
    var v := "application/vnd.api+json";
    var r := v[12..];
    assert r == "vnd.api+json";
    assert r[7] == '+' && r[8..] == "json";
    assert forall x :: 0 <= x < 7 ==> MimeChar(r[x]);
  }

  /** A body with nothing but whitespace parses as `None`, on which every
      typed check raises: such a reply is never valid. */
  lemma EmptyBodyInvalid(url: string, urlType: string, ticket: string, fetch: Fetch, today: Date, parse: DateParser)
    requires Precheck(url).None? && Route(urlType) != Generic
    requires fetch(url).Reply? && fetch(url).status == 200 && fetch(url).body.Empty?
    requires JsonMimetype(Lower(fetch(url).contentType))
    ensures FindingFor(Route(urlType), Null, today, parse).Err?
    ensures ValidateSingle(url, urlType, ticket, fetch, today, parse).status == "Validation Error"
    ensures !ValidateSingle(url, urlType, ticket, fetch, today, parse).valid
  {
  }

  /** The two validators reach the same verdict whenever the URL is
      rejected up front, is generic, or, on the typed paths, answers 200
      with a JSON `Content-Type` and a body on which the shared check does
      not raise; they differ only in how they report (and in the typed
      paths, on statuses from 201 to 399, which only the synchronous one
      accepts, and on a 200 whose `Content-Type` is not JSON, which only the
      synchronous one reads). */
  lemma SameVerdict(url: string, urlType: string, ticket: string, fetch: Fetch, today: Date, parse: DateParser)
    requires UrlValidator.ValidateUrl(url, urlType, fetch, today, parse).Ok?
    requires Precheck(url).None? && Route(urlType) != Generic ==>
      fetch(url).Reply? && fetch(url).status == 200 && JsonMimetype(Lower(fetch(url).contentType))
    ensures ValidateSingle(url, urlType, ticket, fetch, today, parse).valid
      == UrlValidator.ValidateUrl(url, urlType, fetch, today, parse).value.valid
  {
    if Precheck(url).None? && Route(urlType) != Generic && fetch(url).body.Empty? {
      EmptyBodyInvalid(url, urlType, ticket, fetch, today, parse);
    }
  }

  // ---------------------------------------------------------------------
  // The chunk loop of `validate_urls`

  /** What `asyncio.gather(..., return_exceptions=True)` hands back for one
      task. */
  datatype TaskOutcome = Returned(v: Value) | Raised(e: Exc)

  /** The loop's observable steps: awaiting the tasks `lo` to `hi - 1`
      together, and the pause before the next chunk. */
  datatype Event = Gather(lo: nat, hi: nat) | Pause

  /** The results kept from a list of outcomes: returned values in order,
      exceptions dropped. */
  function Kept(outcomes: seq<TaskOutcome>): (r: seq<Value>)
    ensures |r| <= |outcomes|
  {
    if outcomes == [] then []
    else
      var last := outcomes[|outcomes| - 1];
      Kept(outcomes[..|outcomes| - 1]) + (if last.Returned? then [last.v] else [])
  }

  /** When no task raised, every result is kept, in task order. */
  lemma {:induction false} KeptAll(outcomes: seq<TaskOutcome>)
    requires forall i :: 0 <= i < |outcomes| ==> outcomes[i].Returned?
    ensures |Kept(outcomes)| == |outcomes|
    ensures forall i :: 0 <= i < |outcomes| ==> Kept(outcomes)[i] == outcomes[i].v
  {
    if outcomes != [] {
      KeptAll(outcomes[..|outcomes| - 1]);
    }
  }

  /** The events of the chunk loop from task `from` on. */
  function Schedule(n: nat, size: nat, from: nat): seq<Event>
    requires size > 0
    decreases n - from
  {
    if from >= n then []
    else if from + size < n then [Gather(from, from + size), Pause] + Schedule(n, size, from + size)
    else [Gather(from, n)]
  }

  /** The chunks tile the tasks in order: each holds at most `size`
      consecutive tasks, a pause separates two chunks and only two chunks,
      each chunk starts where the one before ended, and the last ends at
      the last task. */
  lemma ScheduleTiles(n: nat, size: nat, from: nat)
    requires size > 0 && from < n
    ensures var s := Schedule(n, size, from);
      && s != [] && s[0].Gather? && s[0].lo == from && s[|s| - 1].Gather? && s[|s| - 1].hi == n
      && (forall j :: 0 <= j < |s| && s[j].Gather? ==> from <= s[j].lo < s[j].hi <= s[j].lo + size && s[j].hi <= n)
      && (forall j :: 0 <= j < |s| && s[j].Pause? ==>
            0 < j < |s| - 1 && s[j - 1].Gather? && s[j + 1].Gather? && s[j + 1].lo == s[j - 1].hi)
      && (forall j :: 0 <= j < |s| - 1 && s[j].Gather? ==> s[j + 1] == Pause)
  {
    ScheduleEnds(n, size, from);
    ScheduleChunks(n, size, from);
    SchedulePauses(n, size, from);
  }

  /** The first event gathers from `from`, the last gathers up to `n`. */
  lemma {:induction false} ScheduleEnds(n: nat, size: nat, from: nat)
    requires size > 0 && from < n
    ensures var s := Schedule(n, size, from);
      s != [] && s[0].Gather? && s[0].lo == from && s[|s| - 1].Gather? && s[|s| - 1].hi == n
    decreases n - from
  {
    if from + size < n {
      ScheduleEnds(n, size, from + size);
      var t := Schedule(n, size, from + size);
      assert Schedule(n, size, from) == [Gather(from, from + size), Pause] + t;
    }
  }

  /** Every chunk of `s` is a non-empty run of at most `size` tasks within
      `from` to `n`. */
  predicate ChunksWithin(s: seq<Event>, from: nat, n: nat, size: nat) {
    forall j :: 0 <= j < |s| && s[j].Gather? ==> from <= s[j].lo < s[j].hi <= s[j].lo + size && s[j].hi <= n
  }

  /** The schedule's chunks lie within `from` to `n`. */
  lemma {:induction false} ScheduleChunks(n: nat, size: nat, from: nat)
    requires size > 0
    ensures ChunksWithin(Schedule(n, size, from), from, n, size)
    decreases n - from
  {
    if from < n && from + size < n {
      ScheduleChunks(n, size, from + size);
      var t := Schedule(n, size, from + size);
      var s := Schedule(n, size, from);
      assert s == [Gather(from, from + size), Pause] + t;
      forall j | 0 <= j < |s| && s[j].Gather?
        ensures from <= s[j].lo < s[j].hi <= s[j].lo + size && s[j].hi <= n
      {
        if j >= 2 {
          assert s[j] == t[j - 2];
        }
      }
    }
  }

  /** Gathers and pauses alternate in `s`: a pause sits between two
      gathers, the second starting where the first ended, and every gather
      but the last is followed by a pause. */
  predicate Alternates(s: seq<Event>) {
    && (forall j :: 0 <= j < |s| && s[j].Pause? ==>
          0 < j < |s| - 1 && s[j - 1].Gather? && s[j + 1].Gather? && s[j + 1].lo == s[j - 1].hi)
    && (forall j :: 0 <= j < |s| - 1 && s[j].Gather? ==> s[j + 1] == Pause)
  }

  /** The schedule alternates gathers and pauses. */
  lemma {:induction false} SchedulePauses(n: nat, size: nat, from: nat)
    requires size > 0
    ensures Alternates(Schedule(n, size, from))
    decreases n - from
  {
    if from < n && from + size < n {
      SchedulePauses(n, size, from + size);
      ScheduleEnds(n, size, from + size);
      var t := Schedule(n, size, from + size);
      var s := Schedule(n, size, from);
      assert s == [Gather(from, from + size), Pause] + t;
      forall j | 0 <= j < |s| && s[j].Pause?
        ensures 0 < j < |s| - 1 && s[j - 1].Gather? && s[j + 1].Gather? && s[j + 1].lo == s[j - 1].hi
      {
        if j >= 3 {
          assert s[j] == t[j - 2] && s[j - 1] == t[j - 3] && s[j + 1] == t[j - 1];
        }
      }
      forall j | 0 <= j < |s| - 1 && s[j].Gather?
        ensures s[j + 1] == Pause
      {
        if j >= 2 {
          assert s[j] == t[j - 2] && s[j + 1] == t[j - 1];
        }
      }
    }
  }

  /** One `gather` over the tasks `lo` to `hi - 1`: their returned values are
      appended in order, their exceptions dropped. */
  method GatherChunk(outcomes: seq<TaskOutcome>, lo: nat, hi: nat, results: seq<Value>) returns (results': seq<Value>)
    requires lo <= hi <= |outcomes| && results == Kept(outcomes[..lo])
    ensures results' == Kept(outcomes[..hi])
  {
    results' := results;
    var j := lo;
    while j < hi
      invariant lo <= j <= hi
      invariant results' == Kept(outcomes[..j])
    {
      assert outcomes[..j + 1][..j] == outcomes[..j];
      var o := outcomes[j];
      if o.Returned? {
        results' := results' + [o.v];
      }
      j := j + 1;
    }
  }

  /** The chunk loop over the awaited outcomes; `chunkSize` is the
      semaphore's value. A zero step makes `range` raise. */
  method GatherInChunks(outcomes: seq<TaskOutcome>, chunkSize: nat) returns (r: Result<seq<Value>>, log: seq<Event>)
    ensures chunkSize == 0 ==> r == Err(Exc(ValueError, "range() arg 3 must not be zero")) && log == []
    ensures chunkSize > 0 ==> r == Ok(Kept(outcomes)) && log == Schedule(|outcomes|, chunkSize, 0)
  {
    log := [];
    if chunkSize == 0 {
      return Err(Exc(ValueError, "range() arg 3 must not be zero")), log;
    }
    var n := |outcomes|;
    var results: seq<Value> := [];
    var i := 0;
    while i < n
      invariant 0 <= i
      invariant i < n ==> results == Kept(outcomes[..i])
      invariant i >= n ==> results == Kept(outcomes)
      invariant log + Schedule(n, chunkSize, i) == Schedule(n, chunkSize, 0)
      decreases n - i
    {
      var hi := if i + chunkSize < n then i + chunkSize else n;
      results := GatherChunk(outcomes, i, hi, results);
      if i + chunkSize < n {
        log := log + [Gather(i, hi), Pause];
      } else {
        log := log + [Gather(i, hi)];
        assert outcomes[..hi] == outcomes;
      }
      i := i + chunkSize;
    }
    r := Ok(results);
  }

  /** `validate_urls(url_data)`: one task per (url, type, ticket), awaited in
      chunks. The per-URL validation catches every exception itself, so no
      task raises and nothing is dropped. */
  method ValidateUrls(urlData: seq<(string, string, string)>, chunkSize: nat, fetch: Fetch, today: Date, parse: DateParser)
    returns (r: Result<seq<Value>>, log: seq<Event>)
    ensures chunkSize == 0 ==> r.Err?
    ensures chunkSize > 0 ==>
      && r.Ok? && |r.value| == |urlData|
      && forall i :: 0 <= i < |urlData| ==>
           r.value[i] == AsDict(ValidateSingle(urlData[i].0, urlData[i].1, urlData[i].2, fetch, today, parse))
    ensures chunkSize > 0 ==> log == Schedule(|urlData|, chunkSize, 0)
  {
    var tasks := seq(|urlData|, i requires 0 <= i < |urlData| =>
      Returned(AsDict(ValidateSingle(urlData[i].0, urlData[i].1, urlData[i].2, fetch, today, parse))));
    r, log := GatherInChunks(tasks, chunkSize);
    if chunkSize > 0 {
      KeptAll(tasks);
    }
  }
}
