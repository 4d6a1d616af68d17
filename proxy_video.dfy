/**
 * The same-origin media proxy: given the remote video location in the `uri`
 * query parameter, fetch it with the server's credential appended as the
 * `key` query parameter and relay the bytes. The environment variable and the
 * outbound fetch are parameters.
 */
module ProxyVideo {
  import opened Wrappers
  import opened Strings
  import opened UriEncoding

  const MissingUri: string := "Missing URI"
  const FetchError: string := "Error fetching video"

  /** A template literal renders an unset variable as the text `undefined`. */
  function KeyText(apiKey: Option<string>): (t: string)
    ensures apiKey.Some? ==> t == apiKey.value
    ensures apiKey.None? ==> t == "undefined"
  {
    match apiKey
    case None => "undefined"
    case Some(k) => k
  }

  /** `&` when the location already has a `?`, `?` otherwise. */
  function Separator(uri: string): (c: char)
    ensures c == '?' <==> '?' !in uri
    ensures c == '&' <==> '?' in uri
  {
    if '?' in uri then '&' else '?'
  }

  /** `${uri}${separator}key=${apiKey}`. */
  function UpstreamUrl(uri: string, apiKey: Option<string>): (url: string)
    ensures uri <= url
    ensures url[|uri|..] == [Separator(uri)] + "key=" + KeyText(apiKey)
    ensures '?' in url
  {
    var url := uri + [Separator(uri)] + "key=" + KeyText(apiKey);
    assert url[|uri|..] == [Separator(uri)] + "key=" + KeyText(apiKey);
    assert url[|uri|] == Separator(uri);
    url
  }

  /**
   * A location without a query gets exactly one `?` (when the key holds
   * none); one with a query keeps its own `?` count, so the key is added as
   * one more parameter of the existing query instead of starting a second one.
   */
  lemma {:induction false} OneQueryStart(uri: string, apiKey: Option<string>)
    requires '?' !in KeyText(apiKey)
    ensures CountChar(UpstreamUrl(uri, apiKey), '?') == if '?' in uri then CountChar(uri, '?') else 1
  {
    var url := UpstreamUrl(uri, apiKey);
    var param := "key=" + KeyText(apiKey);
    var tail := [Separator(uri)] + param;
    PrefixAndRest(uri, url);
    Regroup([Separator(uri)], "key=", KeyText(apiKey));
    CountCharAppend(uri, tail, '?');
    KeyParamHasNoQuery(KeyText(apiKey));
    SeparatorCount(uri, param);
  }

  lemma PrefixAndRest(prefix: string, s: string)
    requires prefix <= s
    ensures s == prefix + s[|prefix|..]
  {
  }

  lemma Regroup(a: string, b: string, c: string)
    ensures a + b + c == a + (b + c)
  {
  }

  lemma KeyParamHasNoQuery(key: string)
    requires '?' !in key
    ensures '?' !in "key=" + key
  {
    assert forall c :: c in "key=" + key ==> c in "key=" || c in key;
    assert '?' !in "key=";
  }

  /** The separator and the key parameter hold one '?' when the location has none, and none otherwise. */
  lemma SeparatorCount(uri: string, param: string)
    requires '?' !in param
    ensures CountChar([Separator(uri)] + param, '?') == if '?' in uri then 0 else 1
  {
    CountCharAppend([Separator(uri)], param, '?');
    assert [Separator(uri)][1..] == [];
  }

  /** What the outbound fetch yields: a network failure, or a status with headers and a body that may fail to read. */
  datatype Upstream =
    | NetworkError
    | Fetched(ok: bool, statusText: string, contentType: Option<string>, body: Option<seq<Byte>>)

  datatype Body = Text(text: string) | Bytes(bytes: seq<Byte>)

  /** The proxy's reply: status, the `Content-Type` it set (if any) and the body. */
  datatype Response = Response(status: nat, contentType: Option<string>, body: Body)

  /** The handler's observable behaviour: the URL it fetched (if any) and its reply. */
  datatype Exchange = Exchange(fetched: Option<string>, response: Response)

  /** `if (contentType)`: the header is copied only when present and non-empty. */
  function ForwardedType(contentType: Option<string>): (t: Option<string>)
    ensures t.Some? <==> contentType.Some? && contentType.value != ""
    ensures t.Some? ==> t == contentType
  {
    if contentType.Some? && contentType.value != "" then contentType else None
  }

  /** The request handler, with the credential and the fetch as parameters. */
  function Handle(uri: Option<string>, apiKey: Option<string>, fetch: string -> Upstream): (x: Exchange)
    ensures uri.None? || uri == Some("") <==> x.response == Response(400, None, Text(MissingUri))
    ensures uri.None? || uri == Some("") <==> x.fetched.None?
    ensures x.fetched.Some? ==> x.fetched == Some(UpstreamUrl(uri.value, apiKey))
    ensures x.fetched.Some? ==>
      (x.response.status == 200 <==> fetch(x.fetched.value).Fetched? && fetch(x.fetched.value).ok &&
                                      fetch(x.fetched.value).body.Some?)
    ensures x.response.status == 200 ==> x.response.body == Bytes(fetch(x.fetched.value).body.value)
    ensures x.response.status == 500 ==> x.response.body == Text(FetchError)
    ensures x.response.status in {200, 400, 500}
  {
    if uri.None? || uri.value == "" then
      Exchange(None, Response(400, None, Text(MissingUri)))
    else
      var url := UpstreamUrl(uri.value, apiKey);
      var reply := Exchange(Some(url), Response(500, None, Text(FetchError)));
      match fetch(url)
      case NetworkError => reply
      case Fetched(ok, _, contentType, body) =>
        if !ok then reply
        else
          var header := ForwardedType(contentType);
          match body
          case None => Exchange(Some(url), Response(500, header, Text(FetchError)))
          case Some(bytes) => Exchange(Some(url), Response(200, header, Bytes(bytes)))
  }

  /** A non-empty location is fetched exactly once, at the location with the key appended. */
  lemma FetchesUpstream(uri: string, apiKey: Option<string>, fetch: string -> Upstream)
    requires uri != ""
    ensures Handle(Some(uri), apiKey, fetch).fetched == Some(UpstreamUrl(uri, apiKey))
  {
  }

  /**
   * Content type is forwarded only once the upstream answered ok, and then it
   * is the upstream's own when that is non-empty; a body that fails to read
   * after that still answers 500 with the header already set.
   */
  lemma ContentTypeForwarding(uri: string, apiKey: Option<string>, fetch: string -> Upstream)
    requires uri != ""
    ensures var up := fetch(UpstreamUrl(uri, apiKey));
      var r := Handle(Some(uri), apiKey, fetch).response;
      && (r.contentType.Some? <==> up.Fetched? && up.ok && up.contentType.Some? && up.contentType.value != "")
      && (r.contentType.Some? ==> r.contentType == up.contentType)
  {
  }

  /** Any upstream failure, network or status, gives the same 500 reply without a content type. */
  lemma UpstreamFailureIs500(uri: string, apiKey: Option<string>, fetch: string -> Upstream)
    requires uri != ""
    requires fetch(UpstreamUrl(uri, apiKey)).NetworkError? || !fetch(UpstreamUrl(uri, apiKey)).ok
    ensures Handle(Some(uri), apiKey, fetch).response == Response(500, None, Text(FetchError))
  {
  }
}
