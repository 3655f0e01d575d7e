/** What the downloader sees of HTTP through `requests`: HEAD responses with their redirect
    history, GET responses, and the exceptions `requests` raises. The server is a pair of
    response functions; a `Network` object records every request sent to it. */
module Http {
  import opened Py
  import opened PyStr

  /** The cookies a response sets. */
  type Cookies = map<string, string>

  /** One intermediate response of a followed redirect chain (`response.history`). */
  datatype Hop = Hop(status: int, cookies: Cookies)

  /** The exceptions of `requests` that the downloader catches apart from HTTPError:
      ConnectionError, and any other RequestException with its text. */
  datatype RequestError = ConnectionError | OtherRequestError(text: string)

  datatype HeadResult = HeadFailed(error: RequestError) | HeadOk(url: string, history: seq<Hop>)

  /** A GET response. Header names are lower case, as `requests` looks them up without
      regard to case. The body is the sequence of chunks `iter_content` yields. */
  datatype Response = Response(status: int, headers: map<string, string>, chunks: seq<seq<byte>>)

  datatype GetResult = GetFailed(error: RequestError) | GetOk(response: Response)

  datatype Request =
    | Head(url: string, cookies: Option<Cookies>, allowRedirects: bool)
    | Get(url: string, cookies: Option<Cookies>)

  /** The behaviour of the remote side, for every request the downloader can make. */
  datatype Server = Server(
    head: (string, Option<Cookies>, bool) -> HeadResult,
    get: (string, Option<Cookies>) -> GetResult)

  class Network {
    const server: Server
    var sent: seq<Request>

    constructor (server: Server)
      ensures this.server == server && sent == []
    {
      this.server := server;
      sent := [];
    }

    /** `session.head(url, cookies=cookies, allow_redirects=allowRedirects)`. */
    method Head(url: string, cookies: Option<Cookies>, allowRedirects: bool) returns (r: HeadResult)
      modifies this`sent
      ensures r == server.head(url, cookies, allowRedirects)
      ensures sent == old(sent) + [Request.Head(url, cookies, allowRedirects)]
    {
      r := server.head(url, cookies, allowRedirects);
      sent := sent + [Request.Head(url, cookies, allowRedirects)];
    }

    /** `requests.get(url, cookies=cookies)`. */
    method Get(url: string, cookies: Option<Cookies>) returns (r: GetResult)
      modifies this`sent
      ensures r == server.get(url, cookies)
      ensures sent == old(sent) + [Request.Get(url, cookies)]
    {
      r := server.get(url, cookies);
      sent := sent + [Request.Get(url, cookies)];
    }
  }

  /** `raise_for_status()` raises HTTPError for a client or server error status. */
  predicate IsHttpError(status: int) {
    400 <= status < 600
  }

  /** Why resolving or fetching the URL failed. */
  datatype Failure = HttpFailure(status: int) | ConnectionFailure | OtherFailure(text: string)

  function FailureOf(e: RequestError): Failure {
    match e
    case ConnectionError => ConnectionFailure
    case OtherRequestError(text) => OtherFailure(text)
  }

  /** The message stored for each failure. */
  function FailureMessage(f: Failure): (m: string)
    ensures f.HttpFailure? ==> m == "HTTPError: " + IntToDecimal(f.status)
    ensures f.ConnectionFailure? ==> m == "Connection failed"
    ensures f.OtherFailure? ==> m == "RequestException: " + f.text
  {
    match f
    case HttpFailure(status) => "HTTPError: " + IntToDecimal(status)
    case ConnectionFailure => "Connection failed"
    case OtherFailure(text) => "RequestException: " + text
  }

  /** The status of an HTTP failure can be read back from its message. */
  lemma StatusReadBack(status: int)
    ensures var m := FailureMessage(HttpFailure(status));
      |m| > |"HTTPError: "| && ParseInt(m[|"HTTPError: "|..]) == Some(status)
  {
    var m := FailureMessage(HttpFailure(status));
    assert m[|"HTTPError: "|..] == IntToDecimal(status);
    ParseIntOfDecimal(status);
    NatToDecimalDigits(if status < 0 then -status else status);
  }

  /** The first character of a message names the kind of failure. */
  function KindLetter(f: Failure): char {
    match f
    case HttpFailure(_) => 'H'
    case ConnectionFailure => 'C'
    case OtherFailure(_) => 'R'
  }

  lemma MessageStartsWithKind(f: Failure)
    ensures |FailureMessage(f)| > 0 && FailureMessage(f)[0] == KindLetter(f)
  {
  }

  /** Distinct failures leave distinct messages, so the message tells which one happened. */
  lemma FailureMessageInjective(f: Failure, g: Failure)
    requires FailureMessage(f) == FailureMessage(g)
    ensures f == g
  {
    var m := FailureMessage(f);
    MessageStartsWithKind(f);
    MessageStartsWithKind(g);
    match f
    case HttpFailure(a) =>
      assert g.HttpFailure?;
      assert IntToDecimal(a) == m[|"HTTPError: "|..] == IntToDecimal(g.status);
      DecimalInjective(a, g.status);
    case ConnectionFailure =>
      assert g.ConnectionFailure?;
    case OtherFailure(t) =>
      assert g.OtherFailure?;
      assert t == m[|"RequestException: "|..] == g.text;
  }

  /** Response i of the history is a 302 and no later one is. */
  predicate IsLastRedirect(history: seq<Hop>, i: int) {
    0 <= i < |history| && history[i].status == 302 &&
    forall k :: i < k < |history| ==> history[k].status != 302
  }

  /** The cookies of the last 302 response of a redirect history, or None. */
  function LastRedirectCookies(history: seq<Hop>): (r: Option<Cookies>)
    ensures r.None? <==> forall i :: 0 <= i < |history| ==> history[i].status != 302
  {
    if history == [] then None
    else if history[|history| - 1].status == 302 then Some(history[|history| - 1].cookies)
    else LastRedirectCookies(history[..|history| - 1])
  }

  /** When present, the cookies are those of the last 302 in the history. */
  lemma {:induction false} LastRedirectCookiesAreLast(history: seq<Hop>)
    requires LastRedirectCookies(history).Some?
    ensures exists i :: IsLastRedirect(history, i) && LastRedirectCookies(history).value == history[i].cookies
  {
    var n := |history| - 1;
    if history[n].status == 302 {
      assert IsLastRedirect(history, n);
    } else {
      var init := history[..n];
      LastRedirectCookiesAreLast(init);
      var i :| IsLastRedirect(init, i) && LastRedirectCookies(init).value == init[i].cookies;
      assert IsLastRedirect(history, i);
    }
  }

  /** The outcome of resolving and fetching a URL: the requests sent, the URL of the last
      HEAD response when every HEAD succeeded, the GET response when one arrived, and the
      failure, if any, that ends the download. */
  datatype Resolution = Resolution(
    requests: seq<Request>, resolved: Option<string>, response: Option<Response>, failure: Option<Failure>)

  /** The GET of `url` after the HEAD requests `sent`, followed by `raise_for_status()`. */
  function Fetch(sent: seq<Request>, url: string, resolved: string, cookies: Option<Cookies>, server: Server): (res: Resolution)
    ensures res.requests == sent + [Get(url, cookies)] && res.resolved == Some(resolved)
    ensures res.failure.None? <==> res.response.Some? && !IsHttpError(res.response.value.status)
    ensures res.response.Some? ==> server.get(url, cookies) == GetOk(res.response.value)
    ensures server.get(url, cookies).GetFailed? ==> res.failure == Some(FailureOf(server.get(url, cookies).error))
    ensures res.failure.Some? && res.failure.value.HttpFailure? ==>
      res.response.Some? && res.failure.value.status == res.response.value.status
  {
    match server.get(url, cookies)
    case GetFailed(e) => Resolution(sent + [Get(url, cookies)], Some(resolved), None, Some(FailureOf(e)))
    case GetOk(resp) =>
      Resolution(sent + [Get(url, cookies)], Some(resolved), Some(resp),
        if IsHttpError(resp.status) then Some(HttpFailure(resp.status)) else None)
  }
}
