/** `URLValidator.validate_url`, the synchronous validator: the shared
    prechecks and routing, a reachability check for generic URLs, and for
    the typed URLs a GET whose error status raises, whose body must be
    JSON, and whose parsed body goes through the shared checks. Exceptions
    the checks raise are not caught here and reach the caller. */
module UrlValidator {
  import opened Common
  import opened Text
  import opened PyValues
  import opened ResponseChecks

  /** The result dictionary: `valid`, `status`, `details`, and
      `response_data` only when a typed check ran to completion. */
  datatype UrlCheck = UrlCheck(valid: bool, status: string, details: string, responseData: Option<Value>)

  /** The message of the exception `raise_for_status` raises for a 4xx or
      5xx status. */
  function HttpErrorText(status: int, reason: string, url: string): string {
    IntToString(status) + (if status < 500 then " Client Error: " else " Server Error: ") + reason + " for url: " + url
  }

  /** `_validate_generic_url` on the reply to its GET. */
  function GenericCheck(reply: HttpReply): (r: UrlCheck)
    ensures r.valid <==> reply.Reply? && reply.status == 200
    ensures reply.Reply? && reply.status != 200 ==> r.status == "HTTP " + IntToString(reply.status)
    ensures reply.Unreachable? ==> r == UrlCheck(false, "Connection Error", reply.message, None)
  {
    match reply
    case Unreachable(_, message) => UrlCheck(false, "Connection Error", message, None)
    case Reply(status, _, _, _) =>
      if status == 200 then UrlCheck(true, "Active", "URL is accessible (200 OK)", None)
      else UrlCheck(false, "HTTP " + IntToString(status), "Received status code: " + IntToString(status), None)
  }

  /** The result of a typed check once the shared check has concluded on
      the parsed body `v`. */
  function Conclude(f: Finding, v: Value): UrlCheck {
    match f
    case Failure(status, details) => UrlCheck(false, status, details, None)
    case Completed(valid, status, details) => UrlCheck(valid, status, details, Some(v))
  }

  /** `_validate_coveragev3_url`, `_validate_memberv3_url` and
      `_validate_accums_url` on the reply to their GET.  `requests` parses
      the body whatever its `Content-Type`; an empty body does not parse. */
  function TypedCheck(k: Kind, url: string, reply: HttpReply, today: Date, parse: DateParser): Result<UrlCheck>
    requires k != Generic
  {
    match reply
    case Unreachable(_, message) => Ok(UrlCheck(false, "API call failed", message, None))
    case Reply(status, reason, _, body) =>
      if 400 <= status < 600 then Ok(UrlCheck(false, "API call failed", HttpErrorText(status, reason, url), None))
      else match body
        case Empty => Ok(UrlCheck(false, "Invalid JSON response", "The API did not return valid JSON", None))
        case NotJson(_) => Ok(UrlCheck(false, "Invalid JSON response", "The API did not return valid JSON", None))
        case Json(v) =>
          match FindingFor(k, v, today, parse)
          case Err(e) => Err(e)
          case Ok(f) => Ok(Conclude(f, v))
  }

  /** A typed check is valid exactly when the GET answered with a status
      below 400 (or from 600 up), the body parsed, and the shared check on
      it completed with a valid verdict; it raises only from that check. */
  lemma TypedValidIff(k: Kind, url: string, reply: HttpReply, today: Date, parse: DateParser)
    requires k != Generic
    ensures var r := TypedCheck(k, url, reply, today, parse);
      && (r.Ok? && r.value.valid <==>
            reply.Reply? && !(400 <= reply.status < 600) && reply.body.Json?
            && FindingFor(k, reply.body.v, today, parse).Ok?
            && FindingFor(k, reply.body.v, today, parse).value.Completed?
            && FindingFor(k, reply.body.v, today, parse).value.valid)
      && (r.Err? <==> reply.Reply? && !(400 <= reply.status < 600) && reply.body.Json?
                      && FindingFor(k, reply.body.v, today, parse).Err?)
  {
  }

  /** A failure found in the response text carries no response data; a
      completed check carries the parsed body. */
  lemma TypedResponseData(k: Kind, url: string, reply: HttpReply, today: Date, parse: DateParser)
    requires k != Generic && reply.Reply? && !(400 <= reply.status < 600) && reply.body.Json?
    requires FindingFor(k, reply.body.v, today, parse).Ok?
    ensures var r := TypedCheck(k, url, reply, today, parse).value;
      r.responseData == if FindingFor(k, reply.body.v, today, parse).value.Completed? then Some(reply.body.v) else None
  {
  }

  /** `validate_url(url, url_type)`; `Err` when a check raised. */
  function ValidateUrl(url: string, urlType: string, fetch: Fetch, today: Date, parse: DateParser): (r: Result<UrlCheck>)
    ensures Precheck(url).Some? ==> r == Ok(UrlCheck(false, Precheck(url).value.0, Precheck(url).value.1, None))
    ensures Precheck(url).None? && Route(urlType) == Generic ==> r == Ok(GenericCheck(fetch(url)))
    ensures Precheck(url).None? && Route(urlType) != Generic ==> r == TypedCheck(Route(urlType), url, fetch(url), today, parse)
  {
    match Precheck(url)
    case Some(rejection) => Ok(UrlCheck(false, rejection.0, rejection.1, None))
    case None =>
      var k := Route(urlType);
      if k == Generic then Ok(GenericCheck(fetch(url)))
      else TypedCheck(k, url, fetch(url), today, parse)
  }

  /** Only a URL that passes the precheck is fetched: a blank URL or one
      without a scheme gives the same answer whatever the network does. */
  lemma PrecheckBeforeFetch(url: string, urlType: string, f: Fetch, g: Fetch, today: Date, parse: DateParser)
    requires Precheck(url).Some?
    ensures ValidateUrl(url, urlType, f, today, parse) == ValidateUrl(url, urlType, g, today, parse)
    ensures !ValidateUrl(url, urlType, f, today, parse).value.valid
  {
  }

  /** A valid verdict needs a reachable URL with an acceptable status. */
  lemma ValidNeedsReply(url: string, urlType: string, fetch: Fetch, today: Date, parse: DateParser)
    requires ValidateUrl(url, urlType, fetch, today, parse).Ok? && ValidateUrl(url, urlType, fetch, today, parse).value.valid
    ensures Precheck(url).None? && fetch(url).Reply?
    ensures Route(urlType) == Generic ==> fetch(url).status == 200
    ensures Route(urlType) != Generic ==> !(400 <= fetch(url).status < 600) && fetch(url).body.Json?
  {
    if Precheck(url).None? && Route(urlType) != Generic {
      TypedValidIff(Route(urlType), url, fetch(url), today, parse);
    }
  }

  /** The typed checks as the validator runs them, with their flag loops. */
  method RunTyped(k: Kind, url: string, reply: HttpReply, today: Date, parse: DateParser) returns (r: Result<UrlCheck>)
    requires k != Generic
    ensures r == TypedCheck(k, url, reply, today, parse)
  {
    if reply.Unreachable? {
      return Ok(UrlCheck(false, "API call failed", reply.message, None));
    }
    if 400 <= reply.status < 600 {
      return Ok(UrlCheck(false, "API call failed", HttpErrorText(reply.status, reply.reason, url), None));
    }
    if !reply.body.Json? {
      return Ok(UrlCheck(false, "Invalid JSON response", "The API did not return valid JSON", None));
    }
    var v := reply.body.v;
    var f: Result<Finding>;
    match k {
      case Coverage => f := CheckCoverage(v, today, parse);
      case Member => f := CheckMember(v);
      case Accums => f := CheckAccums(v);
    }
    if f.Err? {
      return Err(f.error);
    }
    r := Ok(Conclude(f.value, v));
  }
}
