/** The speech endpoint of appV2.py (the copy under Historicalversion is the
    same file): no cache and no counters; each segment is fetched by trying
    the wrapped request body and then the flat one; a stream yields each
    segment's audio whole; a buffered request fetches the segments one after
    another and gives up at the first failure. */
module AppV2 {
  import opened Base
  import opened Backend
  import opened Assembly
  import opened Voices
  import opened Auth
  import opened Segmenter
  import App

  /** What the handler answers: a stream of whole segment blobs, the joined
      audio, or an HTTP error status. */
  datatype Answer =
    | Streamed(blobs: seq<Bytes>)
    | Complete(body: Bytes)
    | HttpError(status: int)

  /** `url_and_payload_formats`: the wrapped body first, then the flat one. */
  function ShapeOrder(text: string, speaker: string, lang: string): seq<Body>
  {
    [Wrapped(text, speaker, lang), Flat(text, speaker, lang)]
  }

  /** `response.status_code == 200`. */
  predicate Succeeded(r: Reply)
  {
    r.Replied? && r.status == 200
  }

  /** What a failed attempt leaves in `last_error`: the exception text, or
      the status and body of the reply. */
  function AttemptError(r: Reply): Failure
  {
    if r.Raised? then Transport(r.message) else HttpStatus(r.status, r.text)
  }

  /** The fallback, stated reply by reply: the `n`-th and following replies
      of the server decide. The first 200 ends the trials and is decoded
      (a 200 without audio raises at once); when neither shape gets a 200
      the call raises with the second attempt's error. */
  function Fallback(reply: (nat, Body) -> Reply, n: nat, text: string, speaker: string, lang: string): (a: Attempts)
    ensures 1 <= a.posts <= 2
  {
    var first := reply(n, Wrapped(text, speaker, lang));
    if Succeeded(first) then Attempts(1, DecodeAudio(first.payload))
    else
      var second := reply(n + 1, Flat(text, speaker, lang));
      if Succeeded(second) then Attempts(2, DecodeAudio(second.payload))
      else Attempts(2, Err(AllShapesFailed(AttemptError(second))))
  }

  /** The fallback makes one or two posts, two exactly when the wrapped body
      is not answered with a 200; it yields audio exactly when the reply it
      stopped at delivers audio; a 200 is handled as the single-shape
      services handle it; and a failure after two posts is the second
      attempt's error. */
  lemma FallbackOutcomes(reply: (nat, Body) -> Reply, n: nat, text: string, speaker: string, lang: string)
    ensures var a := Fallback(reply, n, text, speaker, lang);
      var first := reply(n, Wrapped(text, speaker, lang));
      var second := reply(n + 1, Flat(text, speaker, lang));
      (a.posts == 1 <==> Succeeded(first)) && (a.posts == 2 <==> !Succeeded(first))
      && (a.result.Ok? <==> Delivers(first) || (!Succeeded(first) && Delivers(second)))
      && (Succeeded(first) ==> a.result == HandleReply(first))
      && (!Succeeded(first) && Succeeded(second) ==> a.result == HandleReply(second))
      && (!Succeeded(first) && !Succeeded(second) ==> a.result == Err(AllShapesFailed(AttemptError(second))))
  {
  }

  /** A 200 whose body has no audio raises without trying the flat body. */
  lemma MissingAudioNotRetried(reply: (nat, Body) -> Reply, n: nat, text: string, speaker: string, lang: string)
    requires var first := reply(n, Wrapped(text, speaker, lang));
      Succeeded(first) && first.payload == JsonObject(NoAudio)
    ensures Fallback(reply, n, text, speaker, lang) == Attempts(1, Err(MissingAudio))
  {
  }

  /** The wrapped post raises and the flat one delivers: the flat reply's
      audio is returned. */
  lemma RaiseThenDeliver(reply: (nat, Body) -> Reply, n: nat, text: string, speaker: string, lang: string)
    requires reply(n, Wrapped(text, speaker, lang)).Raised?
    requires Delivers(reply(n + 1, Flat(text, speaker, lang)))
    ensures Fallback(reply, n, text, speaker, lang)
      == Attempts(2, Ok(reply(n + 1, Flat(text, speaker, lang)).payload.audio.decoded.value))
  {
  }

  /** The wrapped post gets a non-200 and the flat one raises: `response`
      still holds the non-200, so the call raises with the exception text
      of the second attempt. */
  lemma StatusThenRaise(reply: (nat, Body) -> Reply, n: nat, text: string, speaker: string, lang: string)
    requires var first := reply(n, Wrapped(text, speaker, lang)); first.Replied? && first.status != 200
    requires reply(n + 1, Flat(text, speaker, lang)).Raised?
    ensures Fallback(reply, n, text, speaker, lang)
      == Attempts(2, Err(AllShapesFailed(Transport(reply(n + 1, Flat(text, speaker, lang)).message))))
  {
  }

  /** The bodies one fetch posts: the wrapped one, and the flat one when
      the wrapped one was not answered with a 200. */
  function Tried(reply: (nat, Body) -> Reply, n: nat, text: string, speaker: string, lang: string): seq<Body>
  {
    ShapeOrder(text, speaker, lang)[..Fallback(reply, n, text, speaker, lang).posts]
  }

  /** `get_segment_audio`: the for-loop over the two shapes, keeping the
      last reply that did not raise in `response` and the last failure in
      `last_error`. */
  method GetSegmentAudio(server: Server, text: string, speaker: string, lang: string)
    returns (r: Result<Bytes, Failure>, ghost posted: seq<Body>)
    modifies server
    ensures var a := Fallback(server.reply, |old(server.sent)|, text, speaker, lang);
      posted == Tried(server.reply, |old(server.sent)|, text, speaker, lang) && |posted| == a.posts && r == a.result
    ensures server.sent == old(server.sent) + posted
  {
    var shapes := ShapeOrder(text, speaker, lang);
    ghost var n := |server.sent|;
    var response: Option<Reply> := None;
    var lastError: Option<Failure> := None;
    posted := [];
    var k := 0;
    while k < |shapes|
      invariant 0 <= k <= 2 && posted == shapes[..k]
      invariant server.sent == old(server.sent) + posted
      invariant k == 0 ==> response.None? && lastError.None?
      invariant k >= 1 ==> !Succeeded(server.reply(n, shapes[0]))
      invariant k == 1 ==> lastError == Some(AttemptError(server.reply(n, shapes[0])))
      invariant k == 1 ==> response.Some? ==> response.value == server.reply(n, shapes[0])
      invariant k == 2 ==> !Succeeded(server.reply(n + 1, shapes[1]))
      invariant k == 2 ==> lastError == Some(AttemptError(server.reply(n + 1, shapes[1])))
      invariant response.Some? ==> response.value.Replied? && !Succeeded(response.value)
    {
      var reply := server.Post(shapes[k]);
      posted := posted + [shapes[k]];
      if reply.Raised? {
        lastError := Some(Transport(reply.message));
      } else {
        response := Some(reply);
        if reply.status == 200 {
          break;
        }
        lastError := Some(HttpStatus(reply.status, reply.text));
      }
      k := k + 1;
    }
    if response.None? || response.value.status != 200 {
      return Err(AllShapesFailed(lastError.value)), posted;
    }
    r := DecodeAudio(response.value.payload);
  }

  /** Every posted body, of either shape, is for one of `texts` with the
      given speaker and language. */
  predicate PostsFor(bodies: seq<Body>, texts: seq<string>, speaker: string, lang: string)
  {
    forall b :: b in bodies ==> b.text in texts && b.speaker == speaker && b.language == lang
  }

  lemma PostsForAppend(posted: seq<Body>, more: seq<Body>, texts: seq<string>, t: string,
                       speaker: string, lang: string)
    requires t in texts && PostsFor(posted, texts, speaker, lang)
    requires more <= ShapeOrder(t, speaker, lang)
    ensures PostsFor(posted + more, texts, speaker, lang)
  {
  }

  /** Segment by segment, what the first `k` fetches did: fetch `i` began
      at server position `offs[i]`, returned the fallback's result from
      there and posted `tries[i]`; the next fetch began where it ended. */
  ghost predicate Traced(reply: (nat, Body) -> Reply, segments: seq<string>, speaker: string, lang: string, k: nat,
                         offs: seq<nat>, outcomes: seq<Result<Bytes, Failure>>, tries: seq<seq<Body>>)
  {
    k <= |segments| && |offs| == k + 1 && |outcomes| == k && |tries| == k
    && forall i {:trigger tries[i]} :: 0 <= i < k ==>
         outcomes[i] == Fallback(reply, offs[i], segments[i], speaker, lang).result
         && tries[i] == Tried(reply, offs[i], segments[i], speaker, lang)
         && offs[i + 1] == offs[i] + |tries[i]|
  }

  /** One more fetch, begun where the trace left the server, extends it. */
  lemma TracedSnoc(reply: (nat, Body) -> Reply, segments: seq<string>, speaker: string, lang: string, k: nat,
                   offs: seq<nat>, outcomes: seq<Result<Bytes, Failure>>, tries: seq<seq<Body>>,
                   outcome: Result<Bytes, Failure>, more: seq<Body>, end: nat)
    requires Traced(reply, segments, speaker, lang, k, offs, outcomes, tries) && k < |segments|
    requires outcome == Fallback(reply, offs[k], segments[k], speaker, lang).result
    requires more == Tried(reply, offs[k], segments[k], speaker, lang)
    requires end == offs[k] + |more|
    ensures Traced(reply, segments, speaker, lang, k + 1, offs + [end], outcomes + [outcome], tries + [more])
  {
  }

  /** One more fetch of a run, as the loops take it: the trace grows by
      the fetch, and the server's log by the bodies it posted. */
  lemma RunStep(reply: (nat, Body) -> Reply, segments: seq<string>, speaker: string, lang: string, k: nat,
                offs: seq<nat>, outcomes: seq<Result<Bytes, Failure>>, tries: seq<seq<Body>>,
                start: seq<Body>, before: seq<Body>, after: seq<Body>, outcome: Result<Bytes, Failure>, more: seq<Body>)
    requires Traced(reply, segments, speaker, lang, k, offs, outcomes, tries) && k < |segments|
    requires offs[k] == |before| && before == start + Concat(tries) && after == before + more
    requires outcome == Fallback(reply, |before|, segments[k], speaker, lang).result
    requires more == Tried(reply, |before|, segments[k], speaker, lang)
    requires PostsFor(Concat(tries), segments, speaker, lang) && |Concat(tries)| <= 2 * k
    ensures Traced(reply, segments, speaker, lang, k + 1, offs + [|after|], outcomes + [outcome], tries + [more])
    ensures after == start + Concat(tries + [more])
    ensures PostsFor(Concat(tries + [more]), segments, speaker, lang) && |Concat(tries + [more])| <= 2 * (k + 1)
  {
    TracedSnoc(reply, segments, speaker, lang, k, offs, outcomes, tries, outcome, more, |after|);
    PostsForAppend(Concat(tries), more, segments, segments[k], speaker, lang);
    ConcatAppend(tries, [more]);
    ConcatSingleton(more);
  }

  /** The replies decide every fetch: two traces over the same segments
      that start at the same server position agree fetch by fetch, as far
      as both go. */
  lemma {:induction false} TracesAgree(reply: (nat, Body) -> Reply, segments: seq<string>, speaker: string, lang: string,
                                       k1: nat, offs1: seq<nat>, outcomes1: seq<Result<Bytes, Failure>>,
                                       tries1: seq<seq<Body>>,
                                       k2: nat, offs2: seq<nat>, outcomes2: seq<Result<Bytes, Failure>>,
                                       tries2: seq<seq<Body>>, i: nat)
    requires Traced(reply, segments, speaker, lang, k1, offs1, outcomes1, tries1)
    requires Traced(reply, segments, speaker, lang, k2, offs2, outcomes2, tries2)
    requires offs1[0] == offs2[0] && i <= k1 && i <= k2
    ensures offs1[i] == offs2[i]
    ensures forall j :: 0 <= j < i ==> outcomes1[j] == outcomes2[j] && tries1[j] == tries2[j]
    decreases i
  {
    if i > 0 {
      TracesAgree(reply, segments, speaker, lang, k1, offs1, outcomes1, tries1, k2, offs2, outcomes2, tries2, i - 1);
      assert tries1[i - 1] == tries2[i - 1];
    }
  }

  /** `generate_audio_stream`: each segment's audio is yielded whole, in
      segment order; a failing segment yields nothing and the stream goes
      on. Every segment is fetched, each where the one before left the
      server. */
  method GenerateAudioStream(server: Server, segments: seq<string>, speaker: string, lang: string)
    returns (blobs: seq<Bytes>, ghost outcomes: seq<Result<Bytes, Failure>>, ghost posted: seq<Body>,
             ghost offs: seq<nat>, ghost tries: seq<seq<Body>>)
    modifies server
    ensures Traced(server.reply, segments, speaker, lang, |segments|, offs, outcomes, tries)
    ensures offs[0] == |old(server.sent)| && posted == Concat(tries)
    ensures blobs == Delivered(outcomes)
    ensures server.sent == old(server.sent) + posted
    ensures PostsFor(posted, segments, speaker, lang) && |posted| <= 2 * |segments|
  {
    offs, tries := [|server.sent|], [];
    blobs, outcomes := [], [];
    var k := 0;
    while k < |segments|
      invariant 0 <= k <= |segments|
      invariant Traced(server.reply, segments, speaker, lang, k, offs, outcomes, tries)
      invariant offs[0] == |old(server.sent)| && offs[k] == |server.sent|
      invariant blobs == Delivered(outcomes)
      invariant server.sent == old(server.sent) + Concat(tries)
      invariant PostsFor(Concat(tries), segments, speaker, lang) && |Concat(tries)| <= 2 * k
    {
      ghost var before := server.sent;
      var outcome, more := GetSegmentAudio(server, segments[k], speaker, lang);
      RunStep(server.reply, segments, speaker, lang, k, offs, outcomes, tries, old(server.sent), before, server.sent,
              outcome, more);
      DeliveredSnoc(outcomes, outcome);
      if outcome.Ok? {
        blobs := blobs + [outcome.value];
      }
      ghost var end: nat := |server.sent|;
      outcomes, tries, offs := outcomes + [outcome], tries + [more], offs + [end];
      k := k + 1;
    }
    posted := Concat(tries);
  }

  /** The segments were fetched in order until the first failure: every
      outcome but the last succeeded, and the fetching stopped early only at
      a failure. */
  predicate StopsAtFirstFailure(outcomes: seq<Result<Bytes, Failure>>, count: nat)
  {
    |outcomes| <= count
    && (forall i :: 0 <= i < |outcomes| - 1 ==> outcomes[i].Ok?)
    && (|outcomes| < count ==> |outcomes| > 0 && outcomes[|outcomes| - 1].Err?)
  }

  /** The buffered branch of `create_speech`: the segments' audio appended
      in order; the first failing segment ends the request with 500 and no
      later segment is fetched. */
  method BufferedSpeech(server: Server, segments: seq<string>, speaker: string, lang: string)
    returns (answer: Answer, ghost outcomes: seq<Result<Bytes, Failure>>, ghost posted: seq<Body>,
             ghost offs: seq<nat>, ghost tries: seq<seq<Body>>)
    modifies server
    ensures Traced(server.reply, segments, speaker, lang, |outcomes|, offs, outcomes, tries)
    ensures offs[0] == |old(server.sent)| && posted == Concat(tries)
    ensures StopsAtFirstFailure(outcomes, |segments|)
    ensures answer == if Gather(outcomes).Ok? then Complete(Concat(Gather(outcomes).value)) else HttpError(500)
    ensures answer.Complete? ==> |outcomes| == |segments|
    ensures server.sent == old(server.sent) + posted
    ensures PostsFor(posted, segments, speaker, lang) && |posted| <= 2 * |outcomes|
  {
    offs, tries := [|server.sent|], [];
    var all: Bytes := [];
    outcomes := [];
    var k := 0;
    while k < |segments|
      invariant 0 <= k <= |segments|
      invariant Traced(server.reply, segments, speaker, lang, k, offs, outcomes, tries)
      invariant offs[0] == |old(server.sent)| && offs[k] == |server.sent|
      invariant forall i :: 0 <= i < k ==> outcomes[i].Ok?
      invariant Gather(outcomes).Ok? && all == Concat(Gather(outcomes).value)
      invariant server.sent == old(server.sent) + Concat(tries)
      invariant PostsFor(Concat(tries), segments, speaker, lang) && |Concat(tries)| <= 2 * k
    {
      ghost var before := server.sent;
      var outcome, more := GetSegmentAudio(server, segments[k], speaker, lang);
      RunStep(server.reply, segments, speaker, lang, k, offs, outcomes, tries, old(server.sent), before, server.sent,
              outcome, more);
      GatherSnoc(outcomes, outcome);
      ghost var values := Gather(outcomes).value;
      ghost var end: nat := |server.sent|;
      outcomes, tries, offs := outcomes + [outcome], tries + [more], offs + [end];
      if outcome.Err? {
        return HttpError(500), outcomes, Concat(tries), offs, tries;
      }
      ConcatAppend(values, [outcome.value]);
      ConcatSingleton(outcome.value);
      all := all + outcome.value;
      k := k + 1;
    }
    answer, posted := Complete(all), Concat(tries);
  }

  /** The buffered request sees the same replies as the stream would: what
      it fetched is the stream's fetches up to its first failure. */
  lemma BufferedIsStreamPrefix(reply: (nat, Body) -> Reply, segments: seq<string>, speaker: string, lang: string,
                               offs: seq<nat>, outcomes: seq<Result<Bytes, Failure>>, tries: seq<seq<Body>>,
                               streamOffs: seq<nat>, streamOutcomes: seq<Result<Bytes, Failure>>,
                               streamTries: seq<seq<Body>>)
    requires Traced(reply, segments, speaker, lang, |outcomes|, offs, outcomes, tries)
    requires Traced(reply, segments, speaker, lang, |segments|, streamOffs, streamOutcomes, streamTries)
    requires offs[0] == streamOffs[0]
    ensures outcomes == streamOutcomes[..|outcomes|] && tries == streamTries[..|tries|]
  {
    TracesAgree(reply, segments, speaker, lang, |outcomes|, offs, outcomes, tries,
                |segments|, streamOffs, streamOutcomes, streamTries, |outcomes|);
  }

  /** `create_speech`: the voice is looked up by id only, the text split,
      and the segments streamed or fetched one after another. */
  method CreateSpeech(server: Server, groups: seq<Group>, req: App.SpeechRequest)
    returns (answer: Answer, segments: seq<string>, ghost outcomes: seq<Result<Bytes, Failure>>,
             ghost posted: seq<Body>, ghost offs: seq<nat>, ghost tries: seq<seq<Body>>)
    modifies server
    ensures segments == Split(req.input, MaxTextLength) && |segments| >= 1
    ensures Traced(server.reply, segments, ResolveById(groups, req.voice).speaker, ResolveById(groups, req.voice).lang,
                   |outcomes|, offs, outcomes, tries)
    ensures offs[0] == |old(server.sent)| && posted == Concat(tries)
    ensures answer == Respond(req.stream, |segments|, outcomes)
    ensures req.stream ==> |outcomes| == |segments|
    ensures !req.stream ==> StopsAtFirstFailure(outcomes, |segments|)
    ensures server.sent == old(server.sent) + posted
    ensures PostsFor(posted, segments, ResolveById(groups, req.voice).speaker, ResolveById(groups, req.voice).lang)
  {
    var speaker, lang := ResolveVoiceById(groups, req.voice);
    segments := SplitText(req.input, MaxTextLength);
    SplitNonEmpty(req.input, MaxTextLength);
    if req.stream {
      var blobs;
      blobs, outcomes, posted, offs, tries := GenerateAudioStream(server, segments, speaker, lang);
      answer := Streamed(blobs);
    } else {
      answer, outcomes, posted, offs, tries := BufferedSpeech(server, segments, speaker, lang);
    }
  }

  /** The handler's answer for the fetched outcomes: the delivered blobs
      when streaming; otherwise the joined audio when every segment was
      fetched and delivered, and 500 at a failure. */
  function Respond(stream: bool, count: nat, outcomes: seq<Result<Bytes, Failure>>): (a: Answer)
    ensures stream ==> a.Streamed?
    ensures !stream && |outcomes| == count ==> (a.Complete? <==> forall i :: 0 <= i < count ==> outcomes[i].Ok?)
    ensures stream ==> a.blobs == Delivered(outcomes)
    ensures a.Complete? ==> a.body == Concat(Delivered(outcomes))
  {
    GatherKeepsOrder(outcomes);
    if stream then Streamed(Delivered(outcomes))
    else if Gather(outcomes).Ok? then Complete(Concat(Gather(outcomes).value)) else HttpError(500)
  }

  /** A POST to /v1/audio/speech: the optional key check, then the handler;
      a request the check lets through is answered by `create_speech`. */
  method ServeSpeech(server: Server, groups: seq<Group>, header: Option<string>, req: App.SpeechRequest)
    returns (answer: Answer, ghost outcomes: seq<Result<Bytes, Failure>>, ghost posted: seq<Body>,
             ghost offs: seq<nat>, ghost tries: seq<seq<Body>>)
    modifies server
    ensures VerifyOptional(header, LegacyKey).Err? ==> answer == HttpError(401) && posted == []
    ensures header.None? ==> answer != HttpError(401)
    ensures header.Some? && ProvidedKey(header.value) == LegacyKey ==> answer != HttpError(401)
    ensures VerifyOptional(header, LegacyKey).Ok? ==>
      var segments := Split(req.input, MaxTextLength);
      var voice := ResolveById(groups, req.voice);
      Traced(server.reply, segments, voice.speaker, voice.lang, |outcomes|, offs, outcomes, tries)
      && offs[0] == |old(server.sent)| && posted == Concat(tries)
      && answer == Respond(req.stream, |segments|, outcomes)
      && (req.stream ==> |outcomes| == |segments|)
      && (!req.stream ==> StopsAtFirstFailure(outcomes, |segments|))
    ensures server.sent == old(server.sent) + posted
  {
    if VerifyOptional(header, LegacyKey).Err? {
      return HttpError(401), [], [], [0], [];
    }
    var segments;
    answer, segments, outcomes, posted, offs, tries := CreateSpeech(server, groups, req);
  }
}
