/**
 * The client side of video generation: take the image payload out of its data
 * URL, start a generation job, poll its status until the provider reports it
 * done, pick out the first video's location and turn it into a same-origin
 * proxy path. Provider replies are given as a finite sequence, so a run that
 * is still polling when they run out ends in `StillPolling` (partial
 * correctness: the loop itself has no bound).
 */
module VideoService {
  import opened Wrappers
  import opened UriEncoding

  // ---------------------------------------------------------------------------
  // The image payload of a data URL (section 3 of RFC 2397)

  /** The position of the first `c` in `s`. */
  function IndexOf(s: string, c: char): (i: nat)
    requires c in s
    ensures i < |s| && s[i] == c && c !in s[..i]
  {
    if s[0] == c then 0 else 1 + IndexOf(s[1..], c)
  }

  /** The pieces glued back together with `sep` between neighbours. */
  function Join(parts: seq<string>, sep: char): string
  {
    if parts == [] then ""
    else if |parts| == 1 then parts[0]
    else parts[0] + [sep] + Join(parts[1..], sep)
  }

  /**
   * `s.split(sep)` for a one-character separator: the pieces between
   * separators, in order, which joined with `sep` give back `s`.
   */
  function Split(s: string, sep: char): (parts: seq<string>)
    ensures |parts| >= 1
    ensures |parts| == 1 <==> sep !in s
    ensures parts[0] <= s
    ensures forall i :: 0 <= i < |parts| ==> sep !in parts[i]
    ensures Join(parts, sep) == s
    decreases |s|
  {
    if sep !in s then [s]
    else
      var i := IndexOf(s, sep);
      var rest := Split(s[i + 1..], sep);
      SplitStep(s, sep, i, rest);
      [s[..i]] + rest
  }

  /** The piece before the first separator, followed by the split of what comes after it, splits `s`. */
  lemma SplitStep(s: string, sep: char, i: nat, rest: seq<string>)
    requires i < |s| && s[i] == sep && sep !in s[..i]
    requires |rest| >= 1 && forall k :: 0 <= k < |rest| ==> sep !in rest[k]
    requires Join(rest, sep) == s[i + 1..]
    ensures |[s[..i]] + rest| >= 2 && ([s[..i]] + rest)[0] <= s
    ensures forall k :: 0 <= k < |[s[..i]] + rest| ==> sep !in ([s[..i]] + rest)[k]
    ensures Join([s[..i]] + rest, sep) == s
  {
    var parts := [s[..i]] + rest;
    assert parts[1..] == rest;
    assert s == s[..i] + [sep] + s[i + 1..];
    forall k | 0 <= k < |parts| ensures sep !in parts[k] {
      if k > 0 {
        assert parts[k] == rest[k - 1];
      }
    }
  }

  /** `result.split(',')[1]`: the text between the first comma and the next one; absent without a comma. */
  function ImagePayload(dataUrl: string): (r: Option<string>)
    ensures r.Some? <==> ',' in dataUrl
    ensures r.Some? ==> ',' !in r.value && r.value <= dataUrl[IndexOf(dataUrl, ',') + 1..]
  {
    var parts := Split(dataUrl, ',');
    if |parts| >= 2 then Some(parts[1]) else None
  }

  /** A FileReader data URL: `data:<type>;base64,<payload>`. */
  function DataUrl(mediaType: string, payload: string): string
  {
    "data:" + mediaType + ";base64," + payload
  }

  /** The payload after the header is exactly what is sent, when neither part holds a comma (base64 never does). */
  lemma ImagePayloadOfDataUrl(mediaType: string, payload: string)
    requires ',' !in mediaType && ',' !in payload
    ensures ImagePayload(DataUrl(mediaType, payload)) == Some(payload)
  {
    var header := "data:" + mediaType + ";base64";
    var s := DataUrl(mediaType, payload);
    assert s == header + "," + payload;
    assert ',' !in header;
    assert IndexOf(s, ',') == |header| by {
      assert s[..|header|] == header && s[|header|] == ',';
    }
    assert s[..|header|] == header && s[|header| + 1..] == payload;
    assert Split(payload, ',') == [payload];
    assert Split(s, ',') == [header, payload];
  }

  /** A text without a comma has no payload part. */
  lemma NoCommaNoPayload(s: string)
    requires ',' !in s
    ensures ImagePayload(s) == None
  {
  }

  // ---------------------------------------------------------------------------
  // Provider objects

  /** The two supported aspect ratios, '16:9' and '9:16'. */
  datatype AspectRatio = Landscape | Portrait

  /** The ratio used when the caller names none. */
  const DefaultAspectRatio: AspectRatio := Landscape

  /** The ratio as sent: "16:9" or "9:16". */
  function AspectRatioText(a: AspectRatio): (t: string)
    ensures t == "16:9" <==> a == Landscape
    ensures t == "9:16" <==> a == Portrait
  {
    match a
    case Landscape => "16:9"
    case Portrait => "9:16"
  }

  datatype Video = Video(uri: Option<string>)
  datatype GeneratedVideo = GeneratedVideo(video: Option<Video>)
  datatype GenerationResponse = GenerationResponse(generatedVideos: Option<seq<GeneratedVideo>>)

  /** The provider's operation handle as the status endpoint returns it. */
  datatype Operation = Operation(name: string, done: bool, response: Option<GenerationResponse>)

  /** `operation.response?.generatedVideos?.[0]?.video?.uri`. */
  function FirstVideoUri(op: Operation): (r: Option<string>)
    ensures r.Some? ==> (op.response.Some? && op.response.value.generatedVideos.Some? &&
                         |op.response.value.generatedVideos.value| > 0)
    ensures r.Some? ==> (op.response.value.generatedVideos.value[0].video.Some? &&
                         op.response.value.generatedVideos.value[0].video.value.uri == r)
    ensures (op.response.Some? && op.response.value.generatedVideos.Some? &&
             |op.response.value.generatedVideos.value| > 0 &&
             op.response.value.generatedVideos.value[0].video.Some?)
            ==> r == op.response.value.generatedVideos.value[0].video.value.uri
  {
    match op.response
    case None => None
    case Some(resp) =>
      match resp.generatedVideos
      case None => None
      case Some(videos) =>
        if videos == [] then None
        else match videos[0].video
          case None => None
          case Some(v) => v.uri
  }

  /** A reply from one of the two endpoints: an operation, or an error status with an optional `error` text. */
  datatype Reply = Ok(operation: Operation) | NotOk(error: Option<string>)

  /** What `/api/veo/start` is sent; the ratio travels as its text. */
  datatype StartRequest = StartRequest(image: Option<string>, mimeType: string, prompt: string, aspectRatio: string)

  const StartFailed: string := "Failed to start video generation"
  const StatusFailed: string := "Failed to check status"
  const NoVideoUri: string := "No video URI returned from generation."

  /** `err.error || fallback`. */
  function ErrorMessage(error: Option<string>, fallback: string): (m: string)
    ensures error.Some? && error.value != "" ==> m == error.value
    ensures error.None? || error.value == "" ==> m == fallback
  {
    if error.Some? && error.value != "" then error.value else fallback
  }

  /** The path of the same-origin proxy. */
  const ProxyPrefix: string := "/api/proxy-video?uri="

  /** `/api/proxy-video?uri=${encodeURIComponent(uri)}`: the proxy path whose query value gives back `uri`. */
  function ProxyPath(uri: string): (p: string)
    ensures ProxyPrefix <= p
    ensures DecodeQueryValue(p[|ProxyPrefix|..]) == Some(uri)
    ensures forall c :: c in p[|ProxyPrefix|..] ==> c !in "&=?#+ "
  {
    EncodeDecodeRoundTrip(uri);
    EncodedIsSingleQueryValue(uri);
    var p := ProxyPrefix + EncodeURIComponent(uri);
    assert p[|ProxyPrefix|..] == EncodeURIComponent(uri);
    p
  }

  // ---------------------------------------------------------------------------
  // The workflow

  /** How a run ends: the playable proxy path, an error, or still polling when the replies ran out. */
  datatype Outcome = Ready(path: string) | Failed(reason: string) | StillPolling(operation: Operation)

  /** A run's outcome and the operations sent to the status endpoint, in order. */
  datatype Run = Run(outcome: Outcome, sent: seq<Operation>)

  /** Step 4: the finished operation's first video, or the no-result error. */
  function Retrieve(op: Operation): (r: Outcome)
    ensures r.Ready? || r == Failed(NoVideoUri)
    ensures r.Ready? <==> FirstVideoUri(op).Some? && FirstVideoUri(op).value != ""
    ensures r.Ready? ==> r.path == ProxyPath(FirstVideoUri(op).value)
  {
    match FirstVideoUri(op)
    case Some(uri) => if uri != "" then Ready(ProxyPath(uri)) else Failed(NoVideoUri)
    case None => Failed(NoVideoUri)
  }

  /** The poll loop from `op`, answered by `replies` in order. */
  function PollFrom(op: Operation, replies: seq<Reply>): (r: Run)
    ensures |r.sent| <= |replies|
    ensures r.sent == [] <==> op.done || replies == []
    ensures r.sent != [] ==> r.sent[0] == op
    ensures r.outcome.StillPolling? ==> |r.sent| == |replies| && !r.outcome.operation.done
    decreases |replies|
  {
    if op.done then Run(Retrieve(op), [])
    else if replies == [] then Run(StillPolling(op), [])
    else match replies[0]
      case NotOk(e) => Run(Failed(ErrorMessage(e, StatusFailed)), [op])
      case Ok(next) =>
        var r := PollFrom(next, replies[1..]);
        Run(r.outcome, [op] + r.sent)
  }

  /** A whole run, from the start endpoint's reply and the status replies. */
  function Workflow(start: Reply, replies: seq<Reply>): (r: Run)
    ensures start.NotOk? ==> r.sent == [] && r.outcome.Failed?
    ensures |r.sent| <= |replies|
    ensures r.sent != [] ==> start.Ok? && r.sent[0] == start.operation
  {
    match start
    case NotOk(e) => Run(Failed(ErrorMessage(e, StartFailed)), [])
    case Ok(op) => PollFrom(op, replies)
  }

  /**
   * `generateVeoVideo`: build and send the start request, then poll while the
   * operation is not done, stopping at the first failed reply.
   */
  method GenerateVeoVideo(dataUrl: string, mimeType: string, prompt: string, aspectRatio: Option<AspectRatio>,
                          start: Reply, replies: seq<Reply>)
    returns (request: StartRequest, sent: seq<Operation>, outcome: Outcome)
    ensures request.image == ImagePayload(dataUrl) && request.mimeType == mimeType && request.prompt == prompt
    ensures request.aspectRatio == AspectRatioText(if aspectRatio.Some? then aspectRatio.value else DefaultAspectRatio)
    ensures aspectRatio.None? ==> request.aspectRatio == "16:9"
    ensures Run(outcome, sent) == Workflow(start, replies)
  {
    var ratio := if aspectRatio.Some? then aspectRatio.value else DefaultAspectRatio;
    request := StartRequest(ImagePayload(dataUrl), mimeType, prompt, AspectRatioText(ratio));
    sent := [];
    if start.NotOk? {
      outcome := Failed(ErrorMessage(start.error, StartFailed));
      return;
    }
    var operation := start.operation;
    var i := 0;
    while !operation.done
      invariant 0 <= i <= |replies|
      invariant Workflow(start, replies) ==
        Run(PollFrom(operation, replies[i..]).outcome, sent + PollFrom(operation, replies[i..]).sent)
      decreases |replies| - i
    {
      if i == |replies| {
        outcome := StillPolling(operation);
        return;
      }
      assert replies[i..][0] == replies[i] && replies[i..][1..] == replies[i + 1..];
      var sentBefore := sent;
      sent := sent + [operation];
      match replies[i] {
        case NotOk(e) =>
          outcome := Failed(ErrorMessage(e, StatusFailed));
          return;
        case Ok(next) =>
          assert sentBefore + ([operation] + PollFrom(next, replies[i + 1..]).sent)
              == sent + PollFrom(next, replies[i + 1..]).sent;
          operation := next;
      }
      i := i + 1;
    }
    outcome := Retrieve(operation);
  }

  // ---------------------------------------------------------------------------
  // What a run guarantees

  /** A refused start reports the server's error (or the generic one) and polls nothing. */
  lemma StartFailureStops(e: Option<string>, replies: seq<Reply>)
    ensures Workflow(NotOk(e), replies) == Run(Failed(ErrorMessage(e, StartFailed)), [])
  {
  }

  /** Polling happens only while the operation is not done: a start reply already done means no polls. */
  lemma DoneAtStartNoPolls(op: Operation, replies: seq<Reply>)
    requires op.done
    ensures Workflow(Ok(op), replies).sent == []
  {
  }

  /**
   * Each poll sends the operation of the reply before it: the first sends the
   * started operation, every later one the previous status reply; none of them
   * was done, and no more polls are sent than there are replies.
   */
  lemma {:induction false} PollsFollowReplies(op: Operation, replies: seq<Reply>)
    ensures var sent := PollFrom(op, replies).sent;
      && |sent| <= |replies|
      && (sent != [] ==> sent[0] == op)
      && (forall i :: 0 <= i < |sent| ==> !sent[i].done)
      && (forall i :: 1 <= i < |sent| ==> replies[i - 1] == Ok(sent[i]))
    decreases |replies|
  {
    if !op.done && replies != [] && replies[0].Ok? {
      var r := PollFrom(replies[0].operation, replies[1..]);
      PollsFollowReplies(replies[0].operation, replies[1..]);
      var sent := PollFrom(op, replies).sent;
      assert sent == [op] + r.sent;
      forall i | 1 <= i < |sent| ensures replies[i - 1] == Ok(sent[i]) {
        if i >= 2 {
          assert sent[i] == r.sent[i - 1];
          assert replies[1..][i - 2] == replies[i - 1];
        }
      }
    }
  }

  /**
   * A failed status reply ends the run at once: when the first `k` replies
   * are not-done operations and reply `k` fails, exactly `k + 1` polls were
   * sent and the run fails with that reply's error.
   */
  lemma {:induction false} StatusFailureStops(op: Operation, replies: seq<Reply>, k: nat)
    requires !op.done
    requires k < |replies| && replies[k].NotOk?
    requires forall i :: 0 <= i < k ==> replies[i].Ok? && !replies[i].operation.done
    ensures |PollFrom(op, replies).sent| == k + 1
    ensures PollFrom(op, replies).outcome == Failed(ErrorMessage(replies[k].error, StatusFailed))
    decreases k
  {
    if k > 0 {
      StatusFailureStops(replies[0].operation, replies[1..], k - 1);
    }
  }

  /**
   * The operation held when the loop stopped after `polls` polls: the started
   * one when nothing was polled, otherwise the reply to the last poll.
   */
  function EndedOn(start: Operation, replies: seq<Reply>, polls: nat): Option<Operation>
  {
    if polls == 0 then Some(start)
    else if polls <= |replies| && replies[polls - 1].Ok? then Some(replies[polls - 1].operation)
    else None
  }

  /** `fin` is done, has a non-empty first-video location, and `path` is that location's proxy path. */
  ghost predicate DoneWithVideo(fin: Operation, path: string)
  {
    fin.done && FirstVideoUri(fin).Some? && FirstVideoUri(fin).value != "" &&
    path == ProxyPath(FirstVideoUri(fin).value)
  }

  /**
   * A run that ends with a path stopped on the operation it last held (the
   * started one, or the reply to its last poll); that operation is done, its
   * first video has a non-empty location, and the path is that location's
   * proxy path.
   */
  lemma {:induction false} ReadyMeansDoneWithVideo(op: Operation, replies: seq<Reply>)
    ensures var r := PollFrom(op, replies);
      r.outcome.Ready? ==>
        EndedOn(op, replies, |r.sent|).Some? && DoneWithVideo(EndedOn(op, replies, |r.sent|).value, r.outcome.path)
    decreases |replies|
  {
    var r := PollFrom(op, replies);
    if !op.done && replies != [] && replies[0].Ok? {
      var next := replies[0].operation;
      var r' := PollFrom(next, replies[1..]);
      ReadyMeansDoneWithVideo(next, replies[1..]);
      PollsFollowReplies(next, replies[1..]);
      assert r.sent == [op] + r'.sent;
      if r.outcome.Ready? {
        if r'.sent == [] {
          assert EndedOn(op, replies, |r.sent|) == Some(next);
        } else {
          assert replies[1..][|r'.sent| - 1] == replies[|r.sent| - 1];
          assert EndedOn(op, replies, |r.sent|) == EndedOn(next, replies[1..], |r'.sent|);
        }
      }
    }
  }

  /** A done operation without a video location fails with the no-result error. */
  lemma MissingUriFails(op: Operation, replies: seq<Reply>)
    requires op.done && (FirstVideoUri(op) == None || FirstVideoUri(op) == Some(""))
    ensures PollFrom(op, replies) == Run(Failed(NoVideoUri), [])
  {
  }

  /**
   * Not done once, then done with a video: one poll, sending the started
   * operation, and the run ends on the video's proxy path.
   */
  lemma OnePollThenReady(op: Operation, fin: Operation, uri: string, rest: seq<Reply>)
    requires !op.done && fin.done && uri != ""
    requires FirstVideoUri(fin) == Some(uri)
    ensures Workflow(Ok(op), [Ok(fin)] + rest) == Run(Ready(ProxyPath(uri)), [op])
  {
    var replies := [Ok(fin)] + rest;
    assert replies[0] == Ok(fin) && replies[1..] == rest;
    assert Retrieve(fin) == Ready(ProxyPath(uri));
    assert PollFrom(fin, rest) == Run(Ready(ProxyPath(uri)), []);
  }
}
