/**
 * The video path end to end: the proxy path the generation workflow emits
 * carries the generated video's location intact through URL encoding, so the
 * proxy fetches that very location with the key appended.
 */
module VideoPipeline {
  import opened Wrappers
  import opened UriEncoding
  import opened VideoService
  import opened ProxyVideo

  /** The proxy's route up to the start of its query string. */
  const ProxyRoute: string := "/api/proxy-video?"

  /** The query string ends at the first '#', where the fragment begins. */
  function BeforeFragment(q: string): (r: string)
    ensures r <= q && '#' !in r
    ensures '#' !in q ==> r == q
  {
    if '#' in q then q[..IndexOf(q, '#')] else q
  }

  /** A parameter's name: the text before its first '=', or all of it when there is none. */
  function ParamName(param: string): (n: string)
    ensures n <= param
    ensures '=' !in n
  {
    if '=' in param then param[..IndexOf(param, '=')] else param
  }

  /** A parameter's raw value: the text after its first '=', or "" when there is none. */
  function ParamValue(param: string): (v: string)
    ensures '=' in param ==> param == ParamName(param) + "=" + v
    ensures '=' !in param ==> v == ""
  {
    if '=' in param then param[IndexOf(param, '=') + 1..] else ""
  }

  /** Position `i` holds the first parameter of `params` called `name`. */
  predicate FirstNamed(params: seq<string>, name: string, i: int)
  {
    0 <= i < |params| && ParamName(params[i]) == name && forall j :: 0 <= j < i ==> ParamName(params[j]) != name
  }

  /** The raw value of the first parameter called `name`, if any parameter is. */
  function FirstParam(params: seq<string>, name: string): (v: Option<string>)
    ensures v.None? <==> forall i :: 0 <= i < |params| ==> ParamName(params[i]) != name
    ensures v.Some? ==> exists i :: FirstNamed(params, name, i) && ParamValue(params[i]) == v.value
  {
    if params == [] then None
    else if ParamName(params[0]) == name then
      assert FirstNamed(params, name, 0);
      Some(ParamValue(params[0]))
    else
      var v := FirstParam(params[1..], name);
      if v.Some? then
        var i :| FirstNamed(params[1..], name, i) && ParamValue(params[1..][i]) == v.value;
        FirstNamedShift(params, name, i);
        v
      else
        NoneNamedShift(params, name);
        v
  }

  lemma FirstNamedShift(params: seq<string>, name: string, i: int)
    requires params != [] && ParamName(params[0]) != name
    requires FirstNamed(params[1..], name, i)
    ensures FirstNamed(params, name, i + 1) && params[i + 1] == params[1..][i]
  {
    forall j | 0 <= j < i + 1 ensures ParamName(params[j]) != name {
      if j > 0 {
        assert params[j] == params[1..][j - 1];
      }
    }
  }

  lemma NoneNamedShift(params: seq<string>, name: string)
    requires params != [] && ParamName(params[0]) != name
    requires forall i :: 0 <= i < |params[1..]| ==> ParamName(params[1..][i]) != name
    ensures forall i :: 0 <= i < |params| ==> ParamName(params[i]) != name
  {
    forall i | 0 <= i < |params| ensures ParamName(params[i]) != name {
      if i > 0 {
        assert params[i] == params[1..][i - 1];
      }
    }
  }

  /**
   * `req.query.uri` for a request to the proxy route: the query string up to
   * any fragment, split at '&', the first parameter named `uri`, its value
   * percent-decoded as UTF-8.
   */
  function QueryUri(path: string): (u: Option<string>)
    ensures !(ProxyRoute <= path) ==> u.None?
    ensures ProxyRoute <= path && FirstParam(Split(BeforeFragment(path[|ProxyRoute|..]), '&'), "uri").None? ==> u.None?
    ensures u.Some? ==> ProxyRoute <= path && FirstParam(Split(BeforeFragment(path[|ProxyRoute|..]), '&'), "uri").Some?
                        && DecodeQueryValue(FirstParam(Split(BeforeFragment(path[|ProxyRoute|..]), '&'), "uri").value) == u
  {
    if ProxyRoute <= path then
      match FirstParam(Split(BeforeFragment(path[|ProxyRoute|..]), '&'), "uri")
      case None => None
      case Some(raw) => DecodeQueryValue(raw)
    else None
  }

  /** A parameter list holding a single `uri=` parameter yields that parameter's value. */
  lemma SingleUriParam(q: string, enc: string)
    requires q == "uri=" + enc
    ensures FirstParam([q], "uri") == Some(enc)
  {
    assert q[0] == 'u' && q[1] == 'r' && q[2] == 'i' && q[3] == '=';
    assert '=' in q;
    assert IndexOf(q, '=') == 3;
    assert q[..3] == "uri";
    assert q[4..] == enc;
  }

  /** The proxy reads back from a workflow path exactly the location it was built from. */
  lemma ProxyPathQuery(uri: string)
    ensures QueryUri(ProxyPath(uri)) == Some(uri)
  {
    var p := ProxyPath(uri);
    var enc := p[|ProxyPrefix|..];
    OnRoute(p);
    NoDelimiter(enc);
    UriParamOnly(enc);
    QueryOfRoute("uri=" + enc);
  }

  /** A path that starts with the proxy prefix is the route followed by a `uri` parameter. */
  lemma OnRoute(p: string)
    requires ProxyPrefix <= p
    ensures p == ProxyRoute + ("uri=" + p[|ProxyPrefix|..])
  {
    assert ProxyPrefix == ProxyRoute + "uri=";
    assert p == ProxyPrefix + p[|ProxyPrefix|..];
  }

  lemma NoDelimiter(enc: string)
    requires forall c :: c in enc ==> c !in "&=?#+ "
    ensures '&' !in enc && '#' !in enc
  {
    assert '&' in "&=?#+ " && '#' in "&=?#+ ";
  }

  /** A query made of one `uri` parameter yields that parameter's value. */
  lemma UriParamOnly(enc: string)
    requires '&' !in enc && '#' !in enc
    ensures '#' !in "uri=" + enc
    ensures FirstParam(Split("uri=" + enc, '&'), "uri") == Some(enc)
  {
    var q := "uri=" + enc;
    assert forall c :: c in q ==> c in "uri=" || c in enc;
    SplitWhole(q, '&');
    SingleUriParam(q, enc);
  }

  /** Text without the separator is a single piece. */
  lemma SplitWhole(s: string, sep: char)
    requires sep !in s
    ensures Split(s, sep) == [s]
  {
  }

  /** Text with one separator splits into the piece before it and the piece after it. */
  lemma SplitInTwo(a: string, b: string, sep: char)
    requires sep !in a && sep !in b
    ensures Split(a + [sep] + b, sep) == [a, b]
  {
    var s := a + [sep] + b;
    assert s[|a|] == sep;
    assert IndexOf(s, sep) == |a| by {
      assert s[..|a|] == a;
    }
    assert s[..|a|] == a && s[|a| + 1..] == b;
  }

  /** On the proxy route, a fragment-free query yields the decoded value of its first `uri` parameter, if it has one. */
  lemma QueryOfRoute(q: string)
    requires '#' !in q
    ensures QueryUri(ProxyRoute + q) ==
      if FirstParam(Split(q, '&'), "uri").Some? then DecodeQueryValue(FirstParam(Split(q, '&'), "uri").value) else None
  {
    PrefixThenRest(ProxyRoute, q);
  }

  lemma PrefixThenRest(a: string, b: string)
    ensures a <= a + b && (a + b)[|a|..] == b
  {
  }

  /** Another parameter ahead of `uri` does not hide it: "?x=1&uri=abc" still yields "abc". */
  lemma OtherParameterFirst(other: string, enc: string)
    requires '&' !in other && '#' !in other && ParamName(other) != "uri"
    requires '&' !in enc && '#' !in enc
    ensures QueryUri(ProxyRoute + other + "&uri=" + enc) == DecodeQueryValue(enc)
  {
    var param := "uri=" + enc;
    var q := other + ['&'] + param;
    assert ProxyRoute + other + "&uri=" + enc == ProxyRoute + q;
    assert '&' !in param && '#' !in q;
    UriAfterOther(other, param, enc);
    QueryOfRoute(q);
  }

  lemma UriAfterOther(other: string, param: string, enc: string)
    requires '&' !in other && ParamName(other) != "uri"
    requires '&' !in param && param == "uri=" + enc
    ensures FirstParam(Split(other + ['&'] + param, '&'), "uri") == Some(enc)
  {
    SplitInTwo(other, param, '&');
    SingleUriParam(param, enc);
    assert [other, param][1..] == [param];
  }

  /** A raw '&' ends the value: "?uri=a&b" yields "a", not "a&b". */
  lemma AmpersandEndsValue(enc: string, rest: string)
    requires '&' !in enc && '#' !in enc
    requires '&' !in rest && '#' !in rest
    ensures QueryUri(ProxyRoute + "uri=" + enc + "&" + rest) == DecodeQueryValue(enc)
  {
    var param := "uri=" + enc;
    var q := param + ['&'] + rest;
    assert ProxyRoute + "uri=" + enc + "&" + rest == ProxyRoute + q;
    assert '&' !in param && '#' !in q;
    UriBeforeRest(param, rest, enc);
    QueryOfRoute(q);
  }

  lemma UriBeforeRest(param: string, rest: string, enc: string)
    requires '&' !in rest && '&' !in param && param == "uri=" + enc
    ensures FirstParam(Split(param + ['&'] + rest, '&'), "uri") == Some(enc)
  {
    SplitInTwo(param, rest, '&');
    SingleUriParam(param, enc);
  }

  /**
   * When a run ends on a path, the proxy reads back from it the non-empty
   * first-video location of the operation the run stopped on, and fetches
   * exactly that location plus the key parameter: it neither answers 400 nor
   * fetches anything else.
   */
  lemma ReadyPathReachesVideo(start: Reply, replies: seq<Reply>, apiKey: Option<string>, fetch: string -> Upstream)
    requires Workflow(start, replies).outcome.Ready?
    ensures start.Ok? && EndedOn(start.operation, replies, |Workflow(start, replies).sent|).Some?
    ensures var fin := EndedOn(start.operation, replies, |Workflow(start, replies).sent|).value;
      && fin.done && FirstVideoUri(fin).Some? && FirstVideoUri(fin).value != ""
      && QueryUri(Workflow(start, replies).outcome.path) == FirstVideoUri(fin)
      && Handle(FirstVideoUri(fin), apiKey, fetch).fetched == Some(UpstreamUrl(FirstVideoUri(fin).value, apiKey))
      && FirstVideoUri(fin).value <= UpstreamUrl(FirstVideoUri(fin).value, apiKey)
  {
    ReadyMeansDoneWithVideo(start.operation, replies);
    var fin := EndedOn(start.operation, replies, |Workflow(start, replies).sent|).value;
    var u := FirstVideoUri(fin).value;
    ProxyPathQuery(u);
    FetchesUpstream(u, apiKey, fetch);
  }
}
