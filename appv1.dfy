/** The speech endpoint of appV1.py (the copy under Historicalversion is the
    same file): the whole input in one wrapped request, memoised on
    (text, speaker, language) with room for 100 entries, the id-only voice
    lookup, the optional key check and the request counters of
    `REQUEST_STATS`. */
module AppV1 {
  import opened Base
  import opened Backend
  import opened Memo
  import opened Metrics
  import opened Voices
  import opened Auth
  import App

  /** `@lru_cache(maxsize=100)` on `get_tts_audio`. */
  const CacheCapacity: nat := 100

  /** What the handler answers: the audio, or an HTTP error status. */
  datatype Answer = Complete(body: Bytes) | HttpError(status: int)

  function StatusOf(a: Answer): int
  {
    if a.HttpError? then a.status else 200
  }

  /** The result of `create_speech` for the outcome of `get_tts_audio`:
      the audio unchanged, or 500 for anything it raised. */
  function AnswerFor(outcome: Result<Bytes, Failure>): (a: Answer)
    ensures a.Complete? <==> outcome.Ok?
    ensures a.Complete? ==> a.body == outcome.value
    ensures a.HttpError? ==> a.status == 500
  {
    if outcome.Ok? then Complete(outcome.value) else HttpError(500)
  }

  /** The process-wide state: the backend, the memo and `REQUEST_STATS`
      (only its three request counters are used). */
  class Service {
    const server: Server
    const cache: LruCache<App.Key, Bytes>
    const stats: PerformanceMetrics
    /** `VOICE_CONFIG` with `LANGUAGE_MAP`, in table order. */
    const groups: seq<Group>

    ghost predicate Valid()
      reads this, cache
    {
      cache.Valid() && cache.capacity == CacheCapacity
    }

    constructor (server: Server, groups: seq<Group>)
      ensures Valid()
      ensures this.server == server && this.groups == groups
      ensures fresh(cache) && cache.entries == map[]
      ensures fresh(stats) && stats.counts == Zero
    {
      this.server := server;
      this.groups := groups;
      cache := new LruCache(CacheCapacity);
      stats := new PerformanceMetrics();
    }

    /** `get_tts_audio`: a resident key answers from the memo; otherwise the
        wrapped body is posted once, a non-200 or a reply without audio
        raises, and only a value that was returned is stored. */
    method GetTtsAudio(text: string, speaker: string, language: string)
      returns (r: Result<Bytes, Failure>, ghost posted: seq<Body>)
      requires Valid()
      modifies server, cache
      ensures Valid()
      ensures posted == if App.Key(text, speaker, language) in old(cache.entries) then []
                        else [Wrapped(text, speaker, language)]
      ensures server.sent == old(server.sent) + posted
      ensures App.Key(text, speaker, language) in old(cache.entries) ==>
        r == Ok(old(cache.entries)[App.Key(text, speaker, language)])
      ensures App.Key(text, speaker, language) !in old(cache.entries) ==>
        r == HandleReply(server.reply(|old(server.sent)|, Wrapped(text, speaker, language)))
      ensures r.Ok? ==> App.Key(text, speaker, language) in cache.entries
                        && cache.entries[App.Key(text, speaker, language)] == r.value
      ensures r.Err? ==> cache.entries == old(cache.entries)
      ensures App.MemoStep(old(cache.entries), cache.entries, App.Key(text, speaker, language), r, CacheCapacity)
    {
      var key := App.Key(text, speaker, language);
      var found := cache.Lookup(key);
      if found.Some? {
        return Ok(found.value), [];
      }
      var reply := server.Post(Wrapped(text, speaker, language));
      posted := [Wrapped(text, speaker, language)];
      r := HandleReply(reply);
      if r.Ok? {
        cache.KeysMatchRecency();
        cache.Store(key, r.value);
      }
    }

    /** `create_speech`: the id-only voice lookup, then the whole input in
        one memoised call; any exception becomes 500. */
    method CreateSpeech(input: string, voice: string)
      returns (answer: Answer, outcome: Result<Bytes, Failure>, ghost posted: seq<Body>)
      requires Valid()
      modifies server, cache
      ensures Valid()
      ensures answer == AnswerFor(outcome)
      ensures var c := ResolveById(groups, voice);
        posted == (if App.Key(input, c.speaker, c.lang) in old(cache.entries) then []
                   else [Wrapped(input, c.speaker, c.lang)])
        && (App.Key(input, c.speaker, c.lang) in old(cache.entries) ==>
              outcome == Ok(old(cache.entries)[App.Key(input, c.speaker, c.lang)]))
        && (App.Key(input, c.speaker, c.lang) !in old(cache.entries) ==>
              outcome == HandleReply(server.reply(|old(server.sent)|, Wrapped(input, c.speaker, c.lang))))
        && (outcome.Ok? ==> App.Key(input, c.speaker, c.lang) in cache.entries
                            && cache.entries[App.Key(input, c.speaker, c.lang)] == outcome.value)
        && App.MemoStep(old(cache.entries), cache.entries, App.Key(input, c.speaker, c.lang), outcome, CacheCapacity)
      ensures server.sent == old(server.sent) + posted
    {
      var speaker, lang := ResolveVoiceById(groups, voice);
      outcome, posted := GetTtsAudio(input, speaker, lang);
      if outcome.Ok? {
        answer := Complete(outcome.value);
      } else {
        answer := HttpError(500);
      }
    }

    /** A POST to /v1/audio/speech through `log_requests`: the optional key
        check, the handler, and the counters, which see every request once
        and the status it ends with. */
    method ServeSpeech(header: Option<string>, input: string, voice: string)
      returns (answer: Answer, ghost outcome: Result<Bytes, Failure>, ghost posted: seq<Body>)
      requires Valid()
      modifies server, cache, stats
      ensures Valid()
      ensures VerifyOptional(header, LegacyKey).Err? ==>
        answer == HttpError(401) && posted == [] && cache.entries == old(cache.entries)
      ensures header.None? ==> VerifyOptional(header, LegacyKey).Ok?
      ensures VerifyOptional(header, LegacyKey).Ok? ==>
        answer == AnswerFor(outcome)
        && var key := App.Key(input, ResolveById(groups, voice).speaker, ResolveById(groups, voice).lang);
        (key in old(cache.entries) ==> outcome == Ok(old(cache.entries)[key]) && posted == [])
        && (key !in old(cache.entries) ==>
              outcome == HandleReply(server.reply(|old(server.sent)|, Wrapped(key.text, key.speaker, key.lang)))
              && posted == [Wrapped(key.text, key.speaker, key.lang)])
        && (outcome.Ok? ==> key in cache.entries && cache.entries[key] == outcome.value)
        && App.MemoStep(old(cache.entries), cache.entries, key, outcome, CacheCapacity)
      ensures server.sent == old(server.sent) + posted
      ensures stats.counts == LoggedNoTry(old(stats.counts), Responded(StatusOf(answer)))
      ensures Balanced(old(stats.counts)) ==> Balanced(stats.counts)
    {
      if VerifyOptional(header, LegacyKey).Err? {
        answer, outcome, posted := HttpError(401), Err(Transport("")), [];
      } else {
        var result;
        answer, result, posted := CreateSpeech(input, voice);
        outcome := result;
      }
      var passed := stats.LogRequestNoTry(Responded(StatusOf(answer)));
      LoggedNoTryCounts(old(stats.counts), Responded(StatusOf(answer)));
      if Balanced(old(stats.counts)) {
        LoggedKeepsBalance(old(stats.counts), Responded(StatusOf(answer)));
      }
    }

    /** Asking twice for the same text and voice: once the first call has
        returned audio, the second returns the same audio without a post. */
    method RepeatedRequest(input: string, voice: string) returns (first: Answer, second: Answer)
      requires Valid()
      modifies server, cache
      ensures Valid()
      ensures first.Complete? ==> second == first && |server.sent| <= |old(server.sent)| + 1
    {
      var outcome; ghost var posted;
      first, outcome, posted := CreateSpeech(input, voice);
      ghost var middle := server.sent;
      second, outcome, posted := CreateSpeech(input, voice);
      if first.Complete? {
        assert server.sent == middle;
      }
    }
  }
}
