/**
 * The `/get_download_link` endpoint: gate on the server status, require a
 * page URL, run the extractor, pick the itag-18 stream or fall back to the
 * top-level link, and classify every outcome as a JSON body and HTTP code.
 *
 * The extractor is the parameter `extract`: the info dictionary, download
 * error or other exception that extraction of a page URL ends with. The
 * server status is the parameter `serverStatus`, and the form's `url` field
 * is `formUrl` (`None` when the form has no such field).
 */
module DownloadLink {
  import opened Wrappers
  import opened PythonValues
  import opened Extraction
  import opened Responses
  import opened FormatSelection

  /** What the handler answers once extraction has returned `info`. */
  function Respond(info: Info): Reply
  {
    match info.formats.GetOr([])
    case None => Reply(Error(SERVER_ERROR_PREFIX + NONE_NOT_ITERABLE), INTERNAL_SERVER_ERROR)
    case Some(formats) =>
      var link :=
        match FirstTarget(formats)
        case Some(target) => target.url.Get()
        case None => info.url.Get();
      if FirstTarget(formats).None? && !Truthy(link) then
        Reply(Error(NO_STREAM_MESSAGE), NOT_FOUND)
      else
        Reply(Success(info.title.GetOr(UNKNOWN_TITLE), link, SUCCESS_MESSAGE), OK)
  }

  /** The endpoint's answer, as a function of its inputs. */
  function Answer(serverStatus: string, formUrl: Option<string>, extract: string -> Outcome): (r: Reply)
    ensures r.code in {OK, BAD_REQUEST, NOT_FOUND, INTERNAL_SERVER_ERROR, SERVICE_UNAVAILABLE}
    ensures r.code == SERVICE_UNAVAILABLE <==> serverStatus != ACTIVE
    ensures r.body.Success? ==> r.code == OK
    ensures r.code == OK && r.body.Error? <==> serverStatus == ACTIVE && !Truthy(formUrl)
    ensures !r.body.Healthy?
  {
    if serverStatus != ACTIVE then
      Reply(Error(UNAVAILABLE_MESSAGE), SERVICE_UNAVAILABLE)
    else if !Truthy(formUrl) then
      Reply(Error(MISSING_URL_MESSAGE), OK)
    else
      match extract(formUrl.value)
      case Extracted(info) => Respond(info)
      case DownloadError(reason) => Reply(Error(DOWNLOAD_ERROR_PREFIX + reason), BAD_REQUEST)
      case OtherException(reason) => Reply(Error(SERVER_ERROR_PREFIX + reason), INTERNAL_SERVER_ERROR)
  }

  /** The handler in the steps of main.py's `get_download_link`: the selection loop stops at the first target. */
  method GetDownloadLink(serverStatus: string, formUrl: Option<string>, extract: string -> Outcome)
    returns (reply: Reply)
    ensures reply == Answer(serverStatus, formUrl, extract)
  {
    if serverStatus != ACTIVE {
      return Reply(Error(UNAVAILABLE_MESSAGE), SERVICE_UNAVAILABLE);
    }
    if !Truthy(formUrl) {
      return Reply(Error(MISSING_URL_MESSAGE), OK);
    }
    var outcome := extract(formUrl.value);
    match outcome
    case DownloadError(reason) =>
      return Reply(Error(DOWNLOAD_ERROR_PREFIX + reason), BAD_REQUEST);
    case OtherException(reason) =>
      return Reply(Error(SERVER_ERROR_PREFIX + reason), INTERNAL_SERVER_ERROR);
    case Extracted(info) =>
      var formats := info.formats.GetOr([]);
      if formats.None? {
        // iterating over None raises a TypeError, caught as any other exception
        return Reply(Error(SERVER_ERROR_PREFIX + NONE_NOT_ITERABLE), INTERNAL_SERVER_ERROR);
      }
      var target: Option<Format> := None;
      for i := 0 to |formats.value|
        invariant target == None
        invariant forall j :: 0 <= j < i ==> !IsTarget(formats.value[j])
      {
        if IsTarget(formats.value[i]) {
          target := Some(formats.value[i]);
          FirstTargetIsFirst(formats.value, i);
          break;
        }
      }
      // A matched format is a non-empty dictionary, hence truthy.
      var link: Option<string>;
      if target.Some? {
        link := target.value.url.Get();
      } else {
        link := info.url.Get();
        if !Truthy(link) {
          return Reply(Error(NO_STREAM_MESSAGE), NOT_FOUND);
        }
      }
      reply := Reply(Success(info.title.GetOr(UNKNOWN_TITLE), link, SUCCESS_MESSAGE), OK);
  }

  /** A server that is not active answers 503 and never reaches the URL check or the extractor. */
  lemma InactiveServerRefuses(serverStatus: string, formUrl: Option<string>, e1: string -> Outcome, e2: string -> Outcome)
    requires serverStatus != ACTIVE
    ensures Answer(serverStatus, formUrl, e1) == Answer(serverStatus, formUrl, e2)
    ensures Answer(serverStatus, formUrl, e1) == Reply(Error(UNAVAILABLE_MESSAGE), SERVICE_UNAVAILABLE)
  {
  }

  /** A missing or empty URL is an error with the default code 200, before any extraction. */
  lemma MissingUrlRefused(serverStatus: string, formUrl: Option<string>, e1: string -> Outcome, e2: string -> Outcome)
    requires serverStatus == ACTIVE
    requires formUrl == None || formUrl == Some("")
    ensures Answer(serverStatus, formUrl, e1) == Answer(serverStatus, formUrl, e2)
    ensures Answer(serverStatus, formUrl, e1) == Reply(Error(MISSING_URL_MESSAGE), OK)
  {
  }

  /** The extractor is consulted on the form's URL and nothing else. */
  lemma ExtractsOnlyFormUrl(serverStatus: string, url: string, e1: string -> Outcome, e2: string -> Outcome)
    requires e1(url) == e2(url)
    ensures Answer(serverStatus, Some(url), e1) == Answer(serverStatus, Some(url), e2)
  {
  }

  /** A library download error answers 400 and any other exception 500, both with status "error". */
  lemma ExtractionFailures(url: string, extract: string -> Outcome)
    requires url != ""
    ensures extract(url).DownloadError? ==>
      Answer(ACTIVE, Some(url), extract) == Reply(Error(DOWNLOAD_ERROR_PREFIX + extract(url).reason), BAD_REQUEST)
    ensures extract(url).OtherException? ==>
      Answer(ACTIVE, Some(url), extract) == Reply(Error(SERVER_ERROR_PREFIX + extract(url).reason), INTERNAL_SERVER_ERROR)
    ensures extract(url).DownloadError? || extract(url).OtherException? ==>
      Answer(ACTIVE, Some(url), extract).body.Status() == "error"
  {
  }

  /** A missing `formats` key reads as an empty list; a `None` value makes the handler fail with 500. */
  lemma FormatsKey(info: Info)
    ensures info.formats.Absent? ==> Respond(info) == Respond(info.(formats := Present([])))
    ensures info.formats.Null? ==> Respond(info).code == INTERNAL_SERVER_ERROR && Respond(info).body.Error?
  {
  }

  /**
   * When some format is a target, the answer is a success whose link is that
   * format's own url (possibly null or empty), and the top-level url is never
   * consulted.
   */
  lemma MatchedFormatWins(info: Info, otherUrl: Field<string>)
    requires info.formats.Present? && FirstTarget(info.formats.value).Some?
    ensures Respond(info) == Respond(info.(url := otherUrl))
    ensures Respond(info).code == OK && Respond(info).body.Success?
    ensures Respond(info).body.streamLink == FirstTarget(info.formats.value).value.url.Get()
  {
  }

  /**
   * With no target, the top-level url is the link when it is truthy; otherwise
   * (absent, null or empty) the answer is "no stream found" with 404.
   */
  lemma FallbackLink(info: Info)
    requires info.formats.GetOr([]).Some?
    requires FirstTarget(info.formats.GetOr([]).value).None?
    ensures Truthy(info.url.Get()) ==>
      Respond(info).code == OK && Respond(info).body.Success? && Respond(info).body.streamLink == info.url.Get()
    ensures !Truthy(info.url.Get()) ==> Respond(info) == Reply(Error(NO_STREAM_MESSAGE), NOT_FOUND)
  {
  }

  /**
   * The whole success case: exactly when the server is active, the URL is
   * given, extraction succeeds with a list of formats and either a target
   * exists or the top-level url is truthy. The title is the info title, or
   * the fixed unknown-title text when the key is absent (null stays null).
   */
  lemma SuccessCases(serverStatus: string, formUrl: Option<string>, extract: string -> Outcome)
    ensures Answer(serverStatus, formUrl, extract).body.Success? <==>
      && serverStatus == ACTIVE && Truthy(formUrl)
      && extract(formUrl.value).Extracted?
      && extract(formUrl.value).info.formats.GetOr([]).Some?
      && (FirstTarget(extract(formUrl.value).info.formats.GetOr([]).value).Some?
          || Truthy(extract(formUrl.value).info.url.Get()))
    ensures Answer(serverStatus, formUrl, extract).body.Success? ==>
      var info := extract(formUrl.value).info;
      && Answer(serverStatus, formUrl, extract).body.title
           == (if info.title.Absent? then Some(UNKNOWN_TITLE) else info.title.Get())
      && Answer(serverStatus, formUrl, extract).body.message == SUCCESS_MESSAGE
  {
  }
}
