/** The checks both URL validators run over a parsed JSON response: an
    "error" anywhere in its text, the coverage checks (every coverage has a
    master record id, some coverage period contains today), the member
    check (every member has a truthy master record id) and the accums
    checks (no operation-outcome detail mentions an error, every benefit
    maximum and member cost component carries both amounts).

    Each check is a loop over a list that stops at the first item that
    decides it; the Python `in`, `[...]` and `for` operations it performs on
    the items can raise, which ends the check with that exception. */
module ResponseChecks {
  import opened Common
  import opened Text
  import opened PyValues

  /** A calendar date; Python compares dates field by field. */
  datatype Date = Date(year: int, month: int, day: int)

  predicate DateLe(a: Date, b: Date) {
    a.year < b.year || (a.year == b.year && (a.month < b.month || (a.month == b.month && a.day <= b.day)))
  }

  /** `datetime.strptime(s, '%Y-%m-%d').date()`, or `None` when it raises. */
  type DateParser = string -> Option<Date>

  /** The body of a response: parsed JSON, nothing but whitespace, or
      other text that does not parse (with the parser's message). */
  datatype Body = Json(v: Value) | Empty | NotJson(message: string)

  /** What a GET of a URL gives: no response (a timeout, or another client
      error, with its message), or a response with its status code, reason
      phrase, `Content-Type` header (empty when absent) and body. */
  datatype HttpReply =
    | Unreachable(timedOut: bool, message: string)
    | Reply(status: int, reason: string, contentType: string, body: Body)

  /** The network, seen from the validators. */
  type Fetch = string -> HttpReply

  /** The four validation paths. */
  datatype Kind = Coverage | Member | Accums | Generic

  /** The precheck both validators make before routing: a blank URL, then
      one without an HTTP scheme (checked on the unstripped text), is
      rejected with this status and detail. */
  function Precheck(url: string): (r: Option<(string, string)>)
    ensures r == Some(("Missing URL", "URL is empty")) <==> Strip(url) == []
    ensures r.None? <==> Strip(url) != [] && ("http://" <= url || "https://" <= url)
  {
    if Strip(url) == [] then Some(("Missing URL", "URL is empty"))
    else if !("http://" <= url || "https://" <= url) then Some(("Invalid URL", "URL must start with http:// or https://"))
    else None
  }

  /** The information separators 0x1C to 0x1F are whitespace to Python:
      a URL made of one is blank. */
  lemma SeparatorUrlIsBlank()
    ensures Precheck([28 as char]) == Some(("Missing URL", "URL is empty"))
    ensures Precheck([31 as char, ' ']) == Some(("Missing URL", "URL is empty"))
  {
    var u := [31 as char, ' '];
    assert u[1..] == [' '] && [' '][1..] == [];
    assert LStrip(u) == [];
  }

  /** Routing by case-insensitive substring of the type: coveragev3 before
      memberv3 before accums; anything else, or no type, is generic. */
  function Route(urlType: string): (k: Kind)
    ensures k == Coverage <==> IsSubstring("coveragev3", Lower(urlType))
    ensures k == Member <==> !IsSubstring("coveragev3", Lower(urlType)) && IsSubstring("memberv3", Lower(urlType))
    ensures k == Accums <==> !IsSubstring("coveragev3", Lower(urlType)) && !IsSubstring("memberv3", Lower(urlType))
                             && IsSubstring("accums", Lower(urlType))
  {
    if urlType != [] && IsSubstring("coveragev3", Lower(urlType)) then Coverage
    else if urlType != [] && IsSubstring("memberv3", Lower(urlType)) then Member
    else if urlType != [] && IsSubstring("accums", Lower(urlType)) then Accums
    else Generic
  }

  /** A type with no letters routes the generic way. */
  lemma EmptyTypeIsGeneric()
    ensures Route("") == Generic
  {
  }

  /** The typed check on a parsed response body. */
  function FindingFor(k: Kind, resp: Value, today: Date, parse: DateParser): Result<Finding>
    requires k != Generic
  {
    match k
    case Coverage => CoverageFinding(resp, today, parse)
    case Member => MemberFinding(resp)
    case Accums => AccumsFinding(resp)
  }

  /** What looking at one item tells a scan: it raised, it decides the scan
      (carrying what was found), or the scan goes on. */
  datatype Probe<T> = Raise(e: Exc) | Hit(found: T) | Pass

  /** The outcome a stopping probe gives the whole scan. */
  function Stop<T>(p: Probe<T>): Result<Option<T>> {
    match p
    case Raise(e) => Err(e)
    case Hit(x) => Ok(Some(x))
    case Pass => Ok(None)
  }

  /** A loop over `items` that ends at the first item whose probe raises or
      hits; `Ok(None)` if every item passes. */
  function Scan<T>(items: seq<Value>, probe: Value -> Probe<T>): Result<Option<T>>
    decreases |items|
  {
    if items == [] then Ok(None)
    else if probe(items[0]).Pass? then Scan(items[1..], probe)
    else Stop(probe(items[0]))
  }

  /** The scan passes exactly when every item passes, and otherwise its
      outcome is that of the first item that does not. */
  lemma {:induction false} ScanFirst<T>(items: seq<Value>, probe: Value -> Probe<T>)
    ensures Scan(items, probe) == Ok(None) <==> forall i :: 0 <= i < |items| ==> probe(items[i]).Pass?
    ensures Scan(items, probe) != Ok(None) ==>
      exists i :: 0 <= i < |items| && !probe(items[i]).Pass?
        && (forall j :: 0 <= j < i ==> probe(items[j]).Pass?)
        && Scan(items, probe) == Stop(probe(items[i]))
    decreases |items|
  {
    if items != [] {
      ScanFirst(items[1..], probe);
      if probe(items[0]).Pass? {
        assert forall i :: 1 <= i < |items| ==> items[i] == items[1..][i - 1];
        if Scan(items, probe) != Ok(None) {
          var i :| 0 <= i < |items[1..]| && !probe(items[1..][i]).Pass?
            && (forall j :: 0 <= j < i ==> probe(items[1..][j]).Pass?)
            && Scan(items[1..], probe) == Stop(probe(items[1..][i]));
          assert forall j :: 1 <= j < i + 1 ==> items[j] == items[1..][j - 1];
          assert items[i + 1] == items[1..][i];
        }
      }
    }
  }

  /** The flag loop: walk the items, stop at the first that raises or hits. */
  method FirstStop<T>(items: seq<Value>, probe: Value -> Probe<T>) returns (r: Result<Option<T>>)
    ensures r == Scan(items, probe)
  {
    var i := 0;
    while i < |items|
      invariant 0 <= i <= |items|
      invariant Scan(items, probe) == Scan(items[i..], probe)
    {
      assert items[i..][1..] == items[i + 1..];
      var p := probe(items[i]);
      if !p.Pass? {
        return Stop(p);
      }
      i := i + 1;
    }
    return Ok(None);
  }

  /** `'error' in str(response_data).lower()` */
  predicate ErrorMentioned(v: Value) {
    IsSubstring("error", Lower(Render(v)))
  }

  /** The list under `key`, as the guard `key in v and isinstance(v[key],
      list)` lets a loop see it: `[]` when the guard is false. */
  function ListField(v: Value, key: string): (r: Result<seq<Value>>)
    ensures v.Dict? && key !in Keys(v.entries) ==> r == Ok([])
    ensures v.Dict? && key in Keys(v.entries) ==> r == Ok(match Get(v.entries, key, Null) case List(xs) => xs case _ => [])
  {
    match Contains(v, key)
    case Err(e) => Err(e)
    case Ok(present) =>
      if !present then Ok([])
      else match GetItem(v, key)
        case Err(e) => Err(e)
        case Ok(x) => if x.List? then Ok(x.items) else Ok([])
  }

  // ---------------------------------------------------------------------
  // Coverage

  /** `'businessIdentifier' not in coverage or 'masterRecordID' not in
      coverage['businessIdentifier']` hits. */
  function MridProbe(cov: Value): Probe<()> {
    match Contains(cov, "businessIdentifier")
    case Err(e) => Raise(e)
    case Ok(present) =>
      if !present then Hit(())
      else match GetItem(cov, "businessIdentifier")
        case Err(e) => Raise(e)
        case Ok(bi) =>
          match Contains(bi, "masterRecordID")
          case Err(e) => Raise(e)
          case Ok(has) => if has then Pass else Hit(())
  }

  /** For a dictionary coverage whose business identifier is a dictionary,
      the probe passes exactly when both keys are there. */
  lemma MridProbeOnDicts(cov: Value)
    requires cov.Dict? && "businessIdentifier" in Keys(cov.entries)
    requires Get(cov.entries, "businessIdentifier", Null).Dict?
    ensures MridProbe(cov) == if "masterRecordID" in Keys(Get(cov.entries, "businessIdentifier", Null).entries) then Pass else Hit(())
  {
  }

  /** A dictionary coverage without a business identifier hits. */
  lemma MridProbeMissing(cov: Value)
    requires cov.Dict? && "businessIdentifier" !in Keys(cov.entries)
    ensures MridProbe(cov) == Hit(())
  {
  }

  /** `v` parsed as a date; only a string can be. */
  function DateOf(v: Value, parse: DateParser): Option<Date> {
    if v.Str? then parse(v.s) else None
  }

  /** The body of the `try` in the coverage-period loop: the period's start
      and end parse and today lies between them; any lookup or parse that
      raises makes it false (the item is skipped). */
  predicate PeriodCovers(cov: Value, today: Date, parse: DateParser) {
    match GetItem(cov, "coveragePeriod")
    case Err(_) => false
    case Ok(p) =>
      match GetItem(p, "start")
      case Err(_) => false
      case Ok(s) =>
        match DateOf(s, parse)
        case None => false
        case Some(start) =>
          match GetItem(p, "end")
          case Err(_) => false
          case Ok(e) =>
            match DateOf(e, parse)
            case None => false
            case Some(end) => DateLe(start, today) && DateLe(today, end)
  }

  /** One step of the active-coverage loop: `'coveragePeriod' in coverage`
      is outside the `try`, so only it can raise. */
  function ActiveProbe(cov: Value, today: Date, parse: DateParser): Probe<()> {
    match Contains(cov, "coveragePeriod")
    case Err(e) => Raise(e)
    case Ok(present) => if present && PeriodCovers(cov, today, parse) then Hit(()) else Pass
  }

  /** The active-coverage probe for a given day, as a function value. */
  function ActiveAt(today: Date, parse: DateParser): Value -> Probe<()> {
    (c: Value) => ActiveProbe(c, today, parse)
  }

  /** A coverage with a well-formed period is active exactly when the
      period contains today. */
  lemma ActiveProbeOnPeriod(cov: Value, start: string, end: string, today: Date, parse: DateParser)
    requires cov.Dict? && "coveragePeriod" in Keys(cov.entries)
    requires var p := Get(cov.entries, "coveragePeriod", Null);
      p.Dict? && Lookup(p.entries, "start") == Some(Str(start)) && Lookup(p.entries, "end") == Some(Str(end))
    requires parse(start).Some? && parse(end).Some?
    ensures ActiveProbe(cov, today, parse).Hit? <==> DateLe(parse(start).value, today) && DateLe(today, parse(end).value)
  {
  }

  /** What a typed check concludes: the response mentions an error, or the
      check ran to completion with this verdict and status. */
  datatype Finding =
    | Failure(status: string, details: string)
    | Completed(valid: bool, status: string, details: string)

  function Flag(b: bool, yes: string, no: string): string {
    if b then yes else no
  }

  /** The coverage check on a parsed response. */
  function CoverageFinding(resp: Value, today: Date, parse: DateParser): (r: Result<Finding>)
    ensures ErrorMentioned(resp) ==> r == Ok(Failure("failure from coverage API", "Error found in API response"))
    ensures !ErrorMentioned(resp) && r.Ok? ==> r.value.Completed? && r.value.details == "Coverage validation completed"
  {
    if ErrorMentioned(resp) then Ok(Failure("failure from coverage API", "Error found in API response"))
    else
      match ListField(resp, "coverages")
      case Err(e) => Err(e)
      case Ok(covs) =>
        match Scan(covs, MridProbe)
        case Err(e) => Err(e)
        case Ok(missing) =>
          match Scan(covs, ActiveAt(today, parse))
          case Err(e) => Err(e)
          case Ok(active) =>
            var parts := ["success calling coverage API",
                          Flag(missing.Some?, "mrid missing", "mrid present"),
                          Flag(active.Some?, "active coverage present", "active coverage missing")];
            Ok(Completed(missing.None? && active.Some?, Join(parts, " | "), "Coverage validation completed"))
  }

  /** Some item's probe hits. */
  predicate AnyHit<T>(items: seq<Value>, probe: Value -> Probe<T>) {
    exists i :: 0 <= i < |items| && probe(items[i]).Hit?
  }

  /** A scan that does not raise finds something exactly when some item
      hits. */
  lemma ScanFoundIff<T>(items: seq<Value>, probe: Value -> Probe<T>)
    requires Scan(items, probe).Ok?
    ensures Scan(items, probe).value.Some? <==> AnyHit(items, probe)
  {
    ScanFirst(items, probe);
  }

  /** Some coverage is active today. */
  predicate AnyActive(covs: seq<Value>, today: Date, parse: DateParser) {
    exists i :: 0 <= i < |covs| && ActiveProbe(covs[i], today, parse).Hit?
  }

  lemma ActiveScan(covs: seq<Value>, today: Date, parse: DateParser)
    requires Scan(covs, ActiveAt(today, parse)).Ok?
    ensures Scan(covs, ActiveAt(today, parse)).value.Some? <==> AnyActive(covs, today, parse)
  {
    var active := ActiveAt(today, parse);
    ScanFoundIff(covs, active);
    assert forall i :: 0 <= i < |covs| ==> active(covs[i]) == ActiveProbe(covs[i], today, parse);
  }

  /** A coverage check that completes is valid exactly when every coverage
      has a master record id and some coverage is active. */
  lemma CoverageValidIff(resp: Value, today: Date, parse: DateParser)
    requires CoverageFinding(resp, today, parse).Ok? && CoverageFinding(resp, today, parse).value.Completed?
    ensures var covs := ListField(resp, "coverages").value;
      CoverageFinding(resp, today, parse).value.valid <==>
        (forall i :: 0 <= i < |covs| ==> MridProbe(covs[i]) == Pass) && AnyActive(covs, today, parse)
  {
    var covs := ListField(resp, "coverages").value;
    assert CoverageFinding(resp, today, parse).value.valid
      == (Scan(covs, MridProbe).value.None? && Scan(covs, ActiveAt(today, parse)).value.Some?);
    ScansValidIff(covs, today, parse);
  }

  /** Both coverage scans completed: no mrid miss and an active coverage
      found is the same as every coverage passing and one being active. */
  lemma ScansValidIff(covs: seq<Value>, today: Date, parse: DateParser)
    requires Scan(covs, MridProbe).Ok? && Scan(covs, ActiveAt(today, parse)).Ok?
    ensures (Scan(covs, MridProbe).value.None? && Scan(covs, ActiveAt(today, parse)).value.Some?)
      <==> (forall i :: 0 <= i < |covs| ==> MridProbe(covs[i]) == Pass) && AnyActive(covs, today, parse)
  {
    ScanFirst(covs, MridProbe);
    ActiveScan(covs, today, parse);
  }

  /** The completed coverage status names the outcome of each check. */
  lemma CoverageStatus(resp: Value, today: Date, parse: DateParser)
    requires CoverageFinding(resp, today, parse).Ok? && CoverageFinding(resp, today, parse).value.Completed?
    ensures var covs := ListField(resp, "coverages").value;
      CoverageFinding(resp, today, parse).value.status == "success calling coverage API" + " | "
        + Flag(AnyHit(covs, MridProbe), "mrid missing", "mrid present") + " | "
        + Flag(AnyActive(covs, today, parse), "active coverage present", "active coverage missing")
  {
    var covs := ListField(resp, "coverages").value;
    ScanFoundIff(covs, MridProbe);
    ActiveScan(covs, today, parse);
    var missing := Scan(covs, MridProbe).value;
    var active := Scan(covs, ActiveAt(today, parse)).value;
    JoinThree("success calling coverage API", Flag(missing.Some?, "mrid missing", "mrid present"),
      Flag(active.Some?, "active coverage present", "active coverage missing"), " | ");
  }

  /** No coverage list, or an empty one, means no active coverage: the
      check completes and is invalid. */
  lemma NoCoveragesInvalid(resp: Value, today: Date, parse: DateParser)
    requires !ErrorMentioned(resp) && ListField(resp, "coverages") == Ok([])
    ensures var f := CoverageFinding(resp, today, parse);
      f.Ok? && f.value.Completed? && !f.value.valid
      && f.value.status == "success calling coverage API" + " | " + "mrid present" + " | " + "active coverage missing"
  {
    JoinThree("success calling coverage API", "mrid present", "active coverage missing", " | ");
  }

  /** The coverage check as the validators run it: two flag loops. */
  method CheckCoverage(resp: Value, today: Date, parse: DateParser) returns (r: Result<Finding>)
    ensures r == CoverageFinding(resp, today, parse)
  {
    if ErrorMentioned(resp) {
      return Ok(Failure("failure from coverage API", "Error found in API response"));
    }
    var covs := ListField(resp, "coverages");
    if covs.Err? {
      return Err(covs.error);
    }
    var missing := FirstStop(covs.value, MridProbe);
    if missing.Err? {
      return Err(missing.error);
    }
    var active := FirstStop(covs.value, ActiveAt(today, parse));
    if active.Err? {
      return Err(active.error);
    }
    var parts := ["success calling coverage API"];
    parts := parts + [Flag(missing.value.Some?, "mrid missing", "mrid present")];
    parts := parts + [Flag(active.value.Some?, "active coverage present", "active coverage missing")];
    assert parts == ["success calling coverage API", Flag(missing.value.Some?, "mrid missing", "mrid present"),
                     Flag(active.value.Some?, "active coverage present", "active coverage missing")];
    r := Ok(Completed(missing.value.None? && active.value.Some?, Join(parts, " | "), "Coverage validation completed"));
  }

  // ---------------------------------------------------------------------
  // Member

  /** `'masterRecordID' not in member or not member['masterRecordID']` hits. */
  function MemberProbe(member: Value): Probe<()> {
    match Contains(member, "masterRecordID")
    case Err(e) => Raise(e)
    case Ok(present) =>
      if !present then Hit(())
      else match GetItem(member, "masterRecordID")
        case Err(e) => Raise(e)
        case Ok(x) => if Truthy(x) then Pass else Hit(())
  }

  /** A dictionary member passes exactly when its master record id is
      present and truthy. */
  lemma MemberProbeOnDict(member: Value)
    requires member.Dict?
    ensures MemberProbe(member) == if "masterRecordID" in Keys(member.entries) && Truthy(Get(member.entries, "masterRecordID", Null)) then Pass else Hit(())
  {
  }

  function MemberFinding(resp: Value): (r: Result<Finding>)
    ensures ErrorMentioned(resp) ==> r == Ok(Failure("failure from member API", "Error found in API response"))
    ensures !ErrorMentioned(resp) && r.Ok? ==> r.value.Completed? && r.value.details == "Member validation completed"
  {
    if ErrorMentioned(resp) then Ok(Failure("failure from member API", "Error found in API response"))
    else
      match ListField(resp, "members")
      case Err(e) => Err(e)
      case Ok(members) =>
        match Scan(members, MemberProbe)
        case Err(e) => Err(e)
        case Ok(missing) =>
          var parts := ["success calling member API", Flag(missing.Some?, "mrid missing", "mrid present")];
          Ok(Completed(missing.None?, Join(parts, " | "), "Member validation completed"))
  }

  /** A member check that completes is valid exactly when every member
      passes; in particular an absent or non-list `members` is valid. */
  lemma MemberValidIff(resp: Value)
    requires MemberFinding(resp).Ok? && MemberFinding(resp).value.Completed?
    ensures var members := ListField(resp, "members").value;
      MemberFinding(resp).value.valid <==> forall i :: 0 <= i < |members| ==> MemberProbe(members[i]) == Pass
    ensures ListField(resp, "members") == Ok([]) ==> MemberFinding(resp).value.valid
  {
    ScanFirst(ListField(resp, "members").value, MemberProbe);
  }

  /** `str()` of a response reads its strings through `repr`, so a control
      character whose `\\xNN` escape ends in `e` spells `error` together with
      a following `rror`, although the string itself does not mention it:
      both the member and the coverage checks then report a failure. */
  lemma EscapedErrorMentioned(key: string, c: char, today: Date, parse: DateParser)
    requires !IsPrintable(c) && c as int < 0x100 && c as int % 16 == 14
    ensures !IsSubstring("error", Lower([c] + "rror"))
    ensures ErrorMentioned(Dict([(key, Str([c] + "rror"))]))
    ensures MemberFinding(Dict([(key, Str([c] + "rror"))])) == Ok(Failure("failure from member API", "Error found in API response"))
    ensures CoverageFinding(Dict([(key, Str([c] + "rror"))]), today, parse) == Ok(Failure("failure from coverage API", "Error found in API response"))
  {
    RawTextSilent(c);
    var pre := RenderSpellsError(key, c);
    assert Lower(pre + "error'}") == Lower(pre) + "error'}";
    assert IsSubstring("error", "error'}");
    IsSubstringConcat("error", Lower(pre), "error'}");
  }

  lemma RawTextSilent(c: char)
    requires !IsPrintable(c)
    ensures !IsSubstring("error", Lower([c] + "rror"))
  {
    var l := Lower([c] + "rror");
    assert l[0] == c != 'e';
    assert l[1..] == "rror";
    if IsSubstring("error", l[1..]) {
      IsSubstringLength("error", l[1..]);
    }
  }

  lemma RenderSpellsError(key: string, c: char) returns (pre: string)
    requires !IsPrintable(c) && c as int < 0x100 && c as int % 16 == 14
    ensures Render(Dict([(key, Str([c] + "rror"))])) == pre + "error'}"
  {
    var d := ReprSpellsError(c);
    RenderSingle(key, Str([c] + "rror"));
    pre := "{" + StrRepr(key) + ": '\\x" + [d];
  }

  lemma RenderSingle(key: string, v: Value)
    ensures Render(Dict([(key, v)])) == "{" + StrRepr(key) + ": " + Repr(v) + "}"
  {
  }

  lemma ReprSpellsError(c: char) returns (d: char)
    requires !IsPrintable(c) && c as int < 0x100 && c as int % 16 == 14
    ensures StrRepr([c] + "rror") == "'\\x" + [d] + "error'"
  {
    var h := ControlEscape(c);
    d := h[0];
    assert h == [d] + "e";
    QuoteOfRror(c);
    EscapedRror(c);
    assert StrRepr([c] + "rror") == ['\''] + ("\\x" + h + "rror") + ['\''];
  }

  lemma QuoteOfRror(c: char)
    requires !IsPrintable(c)
    ensures QuoteFor([c] + "rror") == '\''
  {
    var s := [c] + "rror";
    assert forall i :: 0 <= i < |s| ==> s[i] != '\'';
  }

  lemma EscapedRror(c: char)
    ensures Escaped([c] + "rror", '\'') == EscapeChar(c, '\'') + "rror"
  {
    var s := [c] + "rror";
    EscapedPlain("rror");
    assert s[0] == c && s[1..] == "rror";
  }

  lemma ControlEscape(c: char) returns (h: string)
    requires !IsPrintable(c) && c as int < 0x100 && c as int % 16 == 14
    ensures EscapeChar(c, '\'') == "\\x" + h && |h| == 2 && h[1] == 'e'
  {
    h := Hex(c as int, 2);
    assert h[1] == HexDigit(c as int % 16);
  }

  method CheckMember(resp: Value) returns (r: Result<Finding>)
    ensures r == MemberFinding(resp)
  {
    if ErrorMentioned(resp) {
      return Ok(Failure("failure from member API", "Error found in API response"));
    }
    var members := ListField(resp, "members");
    if members.Err? {
      return Err(members.error);
    }
    var missing := FirstStop(members.value, MemberProbe);
    if missing.Err? {
      return Err(missing.error);
    }
    var parts := ["success calling member API"];
    parts := parts + [Flag(missing.value.Some?, "mrid missing", "mrid present")];
    assert parts == ["success calling member API", Flag(missing.value.Some?, "mrid missing", "mrid present")];
    r := Ok(Completed(missing.value.None?, Join(parts, " | "), "Member validation completed"));
  }

  // ---------------------------------------------------------------------
  // Accums

  /** `'text' in detail and 'error' in str(detail['text']).lower()` hits
      with `str(detail['text'])`. */
  function DetailProbe(detail: Value): Probe<string> {
    match Contains(detail, "text")
    case Err(e) => Raise(e)
    case Ok(present) =>
      if !present then Pass
      else match GetItem(detail, "text")
        case Err(e) => Raise(e)
        case Ok(t) => if ErrorMentioned(t) then Hit(Render(t)) else Pass
  }

  /** The inner loop over an issue's `details` list. */
  function IssueProbe(issue: Value): Probe<string> {
    match ListField(issue, "details")
    case Err(e) => Raise(e)
    case Ok(details) =>
      match Scan(details, DetailProbe)
      case Err(e) => Raise(e)
      case Ok(found) => if found.Some? then Hit(found.value) else Pass
  }

  /** The text of the first operation-outcome detail that mentions an
      error, issue by issue and detail by detail. */
  function OutcomeErrorText(resp: Value): Result<Option<string>> {
    match Contains(resp, "operationOutcome")
    case Err(e) => Err(e)
    case Ok(present) =>
      if !present then Ok(None)
      else match GetItem(resp, "operationOutcome")
        case Err(e) => Err(e)
        case Ok(outcome) =>
          match ListField(outcome, "issue")
          case Err(e) => Err(e)
          case Ok(issues) => Scan(issues, IssueProbe)
  }

  /** `'remainingAmount' not in entry or 'amount' not in entry` hits. */
  function AmountProbe(entry: Value): Probe<()> {
    match Contains(entry, "remainingAmount")
    case Err(e) => Raise(e)
    case Ok(hasRemaining) =>
      if !hasRemaining then Hit(())
      else match Contains(entry, "amount")
        case Err(e) => Raise(e)
        case Ok(hasAmount) => if hasAmount then Pass else Hit(())
  }

  /** A dictionary entry passes exactly when it has both amounts. */
  lemma AmountProbeOnDict(entry: Value)
    requires entry.Dict?
    ensures AmountProbe(entry) == if "remainingAmount" in Keys(entry.entries) && "amount" in Keys(entry.entries) then Pass else Hit(())
  {
  }

  /** `'planLevelBenefitInfo' in pb and group in pb['planLevelBenefitInfo']
      and leaf in pb['planLevelBenefitInfo'][group]`: the dictionary
      holding `leaf` when all three hold. */
  function GroupOf(pb: Value, group: string, leaf: string): Result<Option<Value>> {
    match Contains(pb, "planLevelBenefitInfo")
    case Err(e) => Err(e)
    case Ok(p) =>
      if !p then Ok(None)
      else match GetItem(pb, "planLevelBenefitInfo")
        case Err(e) => Err(e)
        case Ok(info) =>
          match Contains(info, group)
          case Err(e) => Err(e)
          case Ok(g) =>
            if !g then Ok(None)
            else match GetItem(info, group)
              case Err(e) => Err(e)
              case Ok(holder) =>
                match Contains(holder, leaf)
                case Err(e) => Err(e)
                case Ok(l) => if l then Ok(Some(holder)) else Ok(None)
  }

  /** The loop over `pb['planLevelBenefitInfo'][group][leaf]`: `true` when
      some entry lacks an amount. */
  function GroupMissesAmount(pb: Value, group: string, leaf: string): Result<bool> {
    match GroupOf(pb, group, leaf)
    case Err(e) => Err(e)
    case Ok(holder) =>
      if holder.None? then Ok(false)
      else match GetItem(holder.value, leaf)
        case Err(e) => Err(e)
        case Ok(entries) =>
          match Iterate(entries)
          case Err(e) => Err(e)
          case Ok(items) =>
            match Scan(items, AmountProbe)
            case Err(e) => Err(e)
            case Ok(miss) => Ok(miss.Some?)
  }

  /** One plan benefit: benefit maximums first, member cost components
      only while the amounts still hold. */
  function PlanProbe(pb: Value): Probe<()> {
    match GroupMissesAmount(pb, "benefitMaximums", "benefitMaximum")
    case Err(e) => Raise(e)
    case Ok(missMax) =>
      if missMax then Hit(())
      else match GroupMissesAmount(pb, "memberCost", "memberCostComponent")
        case Err(e) => Raise(e)
        case Ok(missCost) => if missCost then Hit(()) else Pass
  }

  function AccumsFinding(resp: Value): (r: Result<Finding>)
    ensures r.Ok? && r.value.Failure? ==>
      r.value.status == "failure from accums API" && OutcomeErrorText(resp).Ok? && OutcomeErrorText(resp).value.Some?
      && r.value.details == "Error in operation outcome: " + OutcomeErrorText(resp).value.value
    ensures r.Ok? && r.value.Completed? ==> OutcomeErrorText(resp) == Ok(None) && r.value.details == "Accums validation completed"
  {
    match OutcomeErrorText(resp)
    case Err(e) => Err(e)
    case Ok(text) =>
      if text.Some? then Ok(Failure("failure from accums API", "Error in operation outcome: " + text.value))
      else match ListField(resp, "planBenefitsAndAccums")
        case Err(e) => Err(e)
        case Ok(plans) =>
          match Scan(plans, PlanProbe)
          case Err(e) => Err(e)
          case Ok(miss) =>
            var parts := ["success calling accums API",
                          Flag(miss.None?, "amount present in all segments", "amount missing in any or all segment")];
            Ok(Completed(miss.None?, Join(parts, " | "), "Accums validation completed"))
  }

  /** An accums check that completes is valid exactly when every plan
      benefit passes; a found error text is that of the first detail, in
      issue order, that mentions an error. */
  lemma AccumsValidIff(resp: Value)
    requires AccumsFinding(resp).Ok? && AccumsFinding(resp).value.Completed?
    ensures var plans := ListField(resp, "planBenefitsAndAccums").value;
      AccumsFinding(resp).value.valid <==> forall i :: 0 <= i < |plans| ==> PlanProbe(plans[i]) == Pass
  {
    ScanFirst(ListField(resp, "planBenefitsAndAccums").value, PlanProbe);
  }

  /** A plan benefit whose benefit maximums are a list of dictionaries
      fails when one of them lacks an amount. */
  lemma PlanProbeMaximums(pb: Value, maxima: seq<Value>, k: nat)
    requires pb.Dict? && Lookup(pb.entries, "planLevelBenefitInfo").Some?
    requires var info := Lookup(pb.entries, "planLevelBenefitInfo").value;
      info.Dict? && Lookup(info.entries, "benefitMaximums").Some?
      && var group := Lookup(info.entries, "benefitMaximums").value;
      group.Dict? && Lookup(group.entries, "benefitMaximum") == Some(List(maxima))
    requires forall i :: 0 <= i < |maxima| ==> maxima[i].Dict?
    requires k < |maxima| && "amount" !in Keys(maxima[k].entries)
    ensures PlanProbe(pb) == Hit(())
  {
    var info := Lookup(pb.entries, "planLevelBenefitInfo").value;
    var group := Lookup(info.entries, "benefitMaximums").value;
    assert GroupOf(pb, "benefitMaximums", "benefitMaximum") == Ok(Some(group));
    AmountScanHits(maxima, k);
    assert GroupMissesAmount(pb, "benefitMaximums", "benefitMaximum") == Ok(true);
  }

  /** Over dictionaries, the amount scan finds a miss as soon as one entry
      lacks an amount. */
  lemma {:induction false} AmountScanHits(maxima: seq<Value>, k: nat)
    requires forall i :: 0 <= i < |maxima| ==> maxima[i].Dict?
    requires k < |maxima| && "amount" !in Keys(maxima[k].entries)
    ensures Scan(maxima, AmountProbe) == Ok(Some(()))
    decreases k
  {
    AmountProbeOnDict(maxima[0]);
    if AmountProbe(maxima[0]) == Pass {
      AmountProbeOnDict(maxima[k]);
      assert maxima[1..][k - 1] == maxima[k];
      assert forall i :: 0 <= i < |maxima[1..]| ==> maxima[1..][i] == maxima[i + 1];
      AmountScanHits(maxima[1..], k - 1);
    }
  }

  method CheckAccums(resp: Value) returns (r: Result<Finding>)
    ensures r == AccumsFinding(resp)
  {
    var text := OutcomeErrorText(resp);
    if text.Err? {
      return Err(text.error);
    }
    if text.value.Some? {
      return Ok(Failure("failure from accums API", "Error in operation outcome: " + text.value.value));
    }
    var plans := ListField(resp, "planBenefitsAndAccums");
    if plans.Err? {
      return Err(plans.error);
    }
    var miss := FirstStop(plans.value, PlanProbe);
    if miss.Err? {
      return Err(miss.error);
    }
    var parts := ["success calling accums API"];
    parts := parts + [Flag(miss.value.None?, "amount present in all segments", "amount missing in any or all segment")];
    assert parts == ["success calling accums API", Flag(miss.value.None?, "amount present in all segments", "amount missing in any or all segment")];
    r := Ok(Completed(miss.value.None?, Join(parts, " | "), "Accums validation completed"));
  }
}
