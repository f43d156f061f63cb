/** The speech endpoint of volcano-tts/app.py and of its earlier version
    Historicalversion/volcano-tts/app.py: the memoised per-segment fetch with
    its counters, the fan-out over segments, the 32 KiB stream, the voice
    lookup and `create_speech` behind the key check and the request-logging
    middleware. The two versions differ in that the earlier one has no text
    filter and its middleware has no `try`. */
module App {
  import opened Base
  import opened Backend
  import opened Assembly
  import opened Memo
  import opened Metrics
  import opened Voices
  import opened Auth
  import opened Segmenter
  import opened Filter

  /** `@lru_cache(maxsize=200)` on `get_segment_audio_cached`. */
  const CacheCapacity: nat := 200

  /** The arguments `get_segment_audio_cached` is memoised on. */
  datatype Key = Key(text: string, speaker: string, lang: string)

  /** The fields of a `TTSRequest` the handler reads. */
  datatype SpeechRequest = SpeechRequest(input: string, voice: string, stream: bool)

  /** What the handler answers: a stream of chunks, a buffered body with its
      `X-Segments-Count`, or an HTTP error status. */
  datatype Answer =
    | Streamed(chunks: seq<Bytes>)
    | Buffered(body: Bytes, segments: nat)
    | HttpError(status: int)

  function StatusOf(a: Answer): int
  {
    if a.HttpError? then a.status else 200
  }

  datatype Version = Current | Historical

  /** Every body is the flat request shape for one of `texts`, with the
      given speaker and language. */
  predicate FlatPosts(bodies: seq<Body>, texts: seq<string>, speaker: string, lang: string)
  {
    forall b :: b in bodies ==> b == Flat(b.text, speaker, lang) && b.text in texts
  }

  /** `cache_hits` and `cache_misses` after `n` calls that reached the
      backend: each such call counts once in both. */
  function CacheCalls(c: Counters, n: nat): Counters
  {
    c.(cacheHits := c.cacheHits + n, cacheMisses := c.cacheMisses + n)
  }

  /** `create_speech`'s shape counters: a streamed request, a request of
      more than one segment. */
  function Shaped(c: Counters, stream: bool, segments: nat): Counters
  {
    c.(streamRequests := c.streamRequests + (if stream then 1 else 0),
       parallelRequests := c.parallelRequests + (if segments > 1 then 1 else 0))
  }

  /** The counters after `posts` backend calls and a buffered body of
      `size` bytes. */
  function Fetched(c: Counters, posts: nat, size: nat): Counters
  {
    CacheCalls(c, posts).(totalAudioSize := c.totalAudioSize + size)
  }

  /** The counters after a `create_speech` call that reached the backend
      `posts` times, for a request of the given shape whose buffered body
      has `size` bytes. */
  function SpeechCounted(c: Counters, posts: nat, stream: bool, segments: nat, size: nat): Counters
  {
    Fetched(Shaped(c, stream, segments), posts, size)
  }

  lemma FetchedNothing(c: Counters, posts: nat)
    ensures Fetched(c, posts, 0) == CacheCalls(c, posts)
  {
  }

  /** The bytes a buffered answer adds to `total_audio_size`. */
  function BodySize(a: Answer): nat
  {
    if a.Buffered? then |a.body| else 0
  }

  /** The phrases `warm_up_service` fetches at startup. */
  const WarmUpPhrases: seq<string> := ["你好", "谢谢", "欢迎使用"]
  const WarmUpSpeaker: string := "zh_male_xiaoming"
  const WarmUpLang: string := "zh"

  /** The flat body posted for a memo key. */
  function FlatOf(key: Key): Body
  {
    Flat(key.text, key.speaker, key.lang)
  }

  /** The bodies of `count` posts for `key`. */
  function Posts(key: Key, count: nat): seq<Body>
    requires count <= 2
  {
    if count == 0 then [] else if count == 1 then [FlatOf(key)] else [FlatOf(key), FlatOf(key)]
  }

  /** One segment's fetch through `get_segment_audio_cached`, from the memo
      `memo`, when the next post gets index `n`. A memoised key answers
      without posting. Otherwise the flat body is posted once; with `retry`
      (the synchronous try of `process_segments_parallel`, taken only when
      the memo is non-empty) a failure there is swallowed and the pool posts
      the body again, the memo still lacking the key. */
  function SegmentFetch(reply: (nat, Body) -> Reply, n: nat, memo: map<Key, Bytes>, key: Key, retry: bool): (a: Attempts)
    ensures a.posts <= 2
    ensures a.posts == 0 <==> key in memo
    ensures a.posts == 2 ==> retry && memo != map[] && a.result == HandleReply(reply(n + 1, FlatOf(key)))
    ensures a.posts == 1 ==> a.result == HandleReply(reply(n, FlatOf(key)))
  {
    if key in memo then Attempts(0, Ok(memo[key]))
    else
      var first := HandleReply(reply(n, FlatOf(key)));
      if retry && memo != map[] && first.Err? then Attempts(2, HandleReply(reply(n + 1, FlatOf(key))))
      else Attempts(1, first)
  }

  /** The synchronous try of `process_segments_parallel` in terms of plain
      fetches: after a failed first post with a non-empty memo, the pool's
      fetch is a plain fetch from the same memo at the next post index. */
  lemma RetryIsTwoFetches(reply: (nat, Body) -> Reply, n: nat, memo: map<Key, Bytes>, key: Key)
    ensures var first := SegmentFetch(reply, n, memo, key, false);
      SegmentFetch(reply, n, memo, key, true)
        == if memo != map[] && first.result.Err? then Attempts(2, SegmentFetch(reply, n + 1, memo, key, false).result)
           else first
  {
  }

  /** How one memoised call may change the memo: a value it returned is
      then memoised under its key, a failure changes nothing, no other key
      gains or changes a value, a memoised key leaves the memo as it was,
      and below the capacity nothing is evicted. */
  predicate MemoStep(before: map<Key, Bytes>, after: map<Key, Bytes>, key: Key, outcome: Result<Bytes, Failure>,
                     capacity: nat)
  {
    (outcome.Ok? ==> key in after && after[key] == outcome.value)
    && (outcome.Err? || key in before ==> after == before)
    && (forall k :: k in after && k != key ==> k in before && after[k] == before[k])
    && (|before.Keys| < capacity ==> forall k :: k in before ==> k in after)
  }

  /** One fetch of a run: from memo `before`, with its first post at index
      `off`, the fetch of `segment` returns `outcome`, posts `tried`, ends
      at post index `next` and leaves memo `after`. */
  predicate FetchStep(reply: (nat, Body) -> Reply, segment: string, speaker: string, lang: string, retry: bool,
                      before: map<Key, Bytes>, after: map<Key, Bytes>, off: nat, next: nat,
                      outcome: Result<Bytes, Failure>, tried: seq<Body>)
  {
    var key := Key(segment, speaker, lang);
    var a := SegmentFetch(reply, off, before, key, retry);
    outcome == a.result && tried == Posts(key, a.posts) && next == off + a.posts
    && MemoStep(before, after, key, outcome, CacheCapacity)
  }

  /** The first `k` fetches of a run over `segments`: fetch `i` starts from
      memo `memos[i]` with its first post at index `offs[i]`, returns
      `outcomes[i]`, posts `tries[i]`, and leaves memo `memos[i + 1]`. */
  ghost predicate Traced(reply: (nat, Body) -> Reply, segments: seq<string>, speaker: string, lang: string,
                         retry: bool, k: nat, memos: seq<map<Key, Bytes>>, offs: seq<nat>,
                         outcomes: seq<Result<Bytes, Failure>>, tries: seq<seq<Body>>)
  {
    k <= |segments| && |memos| == k + 1 && |offs| == k + 1 && |outcomes| == k && |tries| == k
    && forall i {:trigger tries[i]} :: 0 <= i < k ==>
         FetchStep(reply, segments[i], speaker, lang, retry, memos[i], memos[i + 1], offs[i], offs[i + 1],
                   outcomes[i], tries[i])
  }

  lemma TracedSnoc(reply: (nat, Body) -> Reply, segments: seq<string>, speaker: string, lang: string,
                   retry: bool, k: nat, memos: seq<map<Key, Bytes>>, offs: seq<nat>,
                   outcomes: seq<Result<Bytes, Failure>>, tries: seq<seq<Body>>,
                   memo: map<Key, Bytes>, outcome: Result<Bytes, Failure>, more: seq<Body>, end: nat)
    requires Traced(reply, segments, speaker, lang, retry, k, memos, offs, outcomes, tries) && k < |segments|
    requires var a := SegmentFetch(reply, offs[k], memos[k], Key(segments[k], speaker, lang), retry);
      outcome == a.result && more == Posts(Key(segments[k], speaker, lang), a.posts) && end == offs[k] + a.posts
    requires MemoStep(memos[k], memo, Key(segments[k], speaker, lang), outcome, CacheCapacity)
    ensures Traced(reply, segments, speaker, lang, retry, k + 1, memos + [memo], offs + [end],
                   outcomes + [outcome], tries + [more])
  {
    var memos', offs', outcomes', tries' := memos + [memo], offs + [end], outcomes + [outcome], tries + [more];
    forall i | 0 <= i < k + 1
      ensures FetchStep(reply, segments[i], speaker, lang, retry, memos'[i], memos'[i + 1], offs'[i], offs'[i + 1],
                        outcomes'[i], tries'[i])
    {
      if i < k {
        assert tries[i] == tries'[i];
        assert memos'[i] == memos[i] && memos'[i + 1] == memos[i + 1];
        assert offs'[i] == offs[i] && offs'[i + 1] == offs[i + 1];
        assert outcomes'[i] == outcomes[i];
      } else {
        assert memos'[k] == memos[k] && memos'[k + 1] == memo;
        assert offs'[k] == offs[k] && offs'[k + 1] == end;
        assert outcomes'[k] == outcome && tries'[k] == more;
      }
    }
  }

  /** One more fetch of a run, as the loops take it: the trace grows by
      the fetch, and the server's log by the bodies it posted. */
  lemma RunStep(reply: (nat, Body) -> Reply, segments: seq<string>, speaker: string, lang: string,
                retry: bool, k: nat, memos: seq<map<Key, Bytes>>, offs: seq<nat>,
                outcomes: seq<Result<Bytes, Failure>>, tries: seq<seq<Body>>,
                start: seq<Body>, before: seq<Body>, after: seq<Body>,
                memo: map<Key, Bytes>, outcome: Result<Bytes, Failure>, more: seq<Body>)
    requires Traced(reply, segments, speaker, lang, retry, k, memos, offs, outcomes, tries) && k < |segments|
    requires offs[k] == |before| && before == start + Concat(tries) && after == before + more
    requires var a := SegmentFetch(reply, |before|, memos[k], Key(segments[k], speaker, lang), retry);
      outcome == a.result && more == Posts(Key(segments[k], speaker, lang), a.posts)
    requires MemoStep(memos[k], memo, Key(segments[k], speaker, lang), outcome, CacheCapacity)
    ensures Traced(reply, segments, speaker, lang, retry, k + 1, memos + [memo], offs + [|after|],
                   outcomes + [outcome], tries + [more])
    ensures Concat(tries + [more]) == Concat(tries) + more
    ensures after == start + Concat(tries + [more])
  {
    TracedSnoc(reply, segments, speaker, lang, retry, k, memos, offs, outcomes, tries, memo, outcome, more, |after|);
    ConcatAppend(tries, [more]);
    ConcatSingleton(more);
  }

  /** Every body a run posts is the flat body of one of its segments. */
  lemma TracedPostsFlat(reply: (nat, Body) -> Reply, segments: seq<string>, speaker: string, lang: string,
                        retry: bool, k: nat, memos: seq<map<Key, Bytes>>, offs: seq<nat>,
                        outcomes: seq<Result<Bytes, Failure>>, tries: seq<seq<Body>>)
    requires Traced(reply, segments, speaker, lang, retry, k, memos, offs, outcomes, tries)
    ensures FlatPosts(Concat(tries), segments, speaker, lang)
  {
    forall i | 0 <= i < k
      ensures FlatPosts(tries[i], segments, speaker, lang)
    {
      assert tries[i] == Posts(Key(segments[i], speaker, lang),
                               SegmentFetch(reply, offs[i], memos[i], Key(segments[i], speaker, lang), retry).posts);
    }
    ConcatFlat(tries, segments, speaker, lang);
  }

  lemma {:induction false} ConcatFlat(parts: seq<seq<Body>>, texts: seq<string>, speaker: string, lang: string)
    requires forall i :: 0 <= i < |parts| ==> FlatPosts(parts[i], texts, speaker, lang)
    ensures FlatPosts(Concat(parts), texts, speaker, lang)
  {
    if parts != [] {
      ConcatFlat(parts[1..], texts, speaker, lang);
      assert FlatPosts(parts[0], texts, speaker, lang);
    }
  }

  /** Once the memo holds a key it never becomes empty again within a
      run: a failure leaves it as it was, a success leaves its key there. */
  lemma {:induction false} MemoStaysFilled(reply: (nat, Body) -> Reply, segments: seq<string>, speaker: string, lang: string,
                                           retry: bool, k: nat, memos: seq<map<Key, Bytes>>, offs: seq<nat>,
                                           outcomes: seq<Result<Bytes, Failure>>, tries: seq<seq<Body>>, j: nat)
    requires Traced(reply, segments, speaker, lang, retry, k, memos, offs, outcomes, tries)
    requires j <= k && memos[j] != map[]
    ensures memos[k] != map[]
    decreases k - j
  {
    if j < k {
      assert tries[j] == tries[j];
      var key := Key(segments[j], speaker, lang);
      if outcomes[j].Ok? {
        assert key in memos[j + 1];
      }
      MemoStaysFilled(reply, segments, speaker, lang, retry, k, memos, offs, outcomes, tries, j + 1);
    }
  }

  /** A segment that succeeded leaves the memo non-empty at the end of the
      run; so after a warm-up in which one phrase succeeded,
      `process_segments_parallel` takes its synchronous branch. */
  lemma SuccessFillsMemo(reply: (nat, Body) -> Reply, segments: seq<string>, speaker: string, lang: string,
                         retry: bool, k: nat, memos: seq<map<Key, Bytes>>, offs: seq<nat>,
                         outcomes: seq<Result<Bytes, Failure>>, tries: seq<seq<Body>>, i: nat)
    requires Traced(reply, segments, speaker, lang, retry, k, memos, offs, outcomes, tries)
    requires i < k && outcomes[i].Ok?
    ensures memos[k] != map[]
  {
    assert tries[i] == tries[i];
    assert Key(segments[i], speaker, lang) in memos[i + 1];
    MemoStaysFilled(reply, segments, speaker, lang, retry, k, memos, offs, outcomes, tries, i + 1);
  }

  /** From fetch `j` on, a run whose segments are all memoised answers from
      the memo alone: no post, every outcome the memoised audio, and the
      memo unchanged. */
  lemma {:induction false} MemoisedRunPostsNothing(reply: (nat, Body) -> Reply, segments: seq<string>, speaker: string,
                                                   lang: string, retry: bool, memos: seq<map<Key, Bytes>>,
                                                   offs: seq<nat>, outcomes: seq<Result<Bytes, Failure>>,
                                                   tries: seq<seq<Body>>, j: nat)
    requires Traced(reply, segments, speaker, lang, retry, |segments|, memos, offs, outcomes, tries)
    requires forall i :: 0 <= i < |segments| ==> Key(segments[i], speaker, lang) in memos[0]
    requires j <= |segments| && memos[j] == memos[0] && offs[j] == offs[0]
    ensures memos[|segments|] == memos[0] && offs[|segments|] == offs[0]
    ensures forall i :: j <= i < |segments| ==>
      tries[i] == [] && outcomes[i] == Ok(memos[0][Key(segments[i], speaker, lang)])
    decreases |segments| - j
  {
    if j < |segments| {
      assert tries[j] == tries[j];
      MemoisedRunPostsNothing(reply, segments, speaker, lang, retry, memos, offs, outcomes, tries, j + 1);
    }
  }

  /** The process-wide state of one running service. */
  class Service {
    const version: Version
    const server: Server
    const cache: LruCache<Key, Bytes>
    const metrics: PerformanceMetrics
    /** The module-level `text_filter` of the current version. */
    const filter: Option<TextFilter>
    /** `VOICE_CONFIG` with `LANGUAGE_MAP`, in table order. */
    const groups: seq<Group>

    ghost predicate Valid()
      reads this, cache, if filter.Some? then {filter.value} else {}
    {
      cache.Valid() && cache.capacity == CacheCapacity
      && (filter.Some? <==> version == Current)
      && (filter.Some? ==> filter.value.Valid())
    }

    constructor (version: Version, server: Server, filter: Option<TextFilter>, groups: seq<Group>)
      requires filter.Some? <==> version == Current
      requires filter.Some? ==> filter.value.Valid()
      ensures Valid()
      ensures this.version == version && this.server == server && this.filter == filter && this.groups == groups
      ensures fresh(cache) && cache.entries == map[]
      ensures fresh(metrics) && metrics.counts == Zero
    {
      this.version := version;
      this.server := server;
      this.filter := filter;
      this.groups := groups;
      cache := new LruCache(CacheCapacity);
      metrics := new PerformanceMetrics();
    }

    /** `get_segment_audio`: count a miss, post the flat body and handle the
        reply. */
    method GetSegmentAudio(text: string, speaker: string, lang: string) returns (r: Result<Bytes, Failure>)
      modifies server, metrics
      ensures server.sent == old(server.sent) + [Flat(text, speaker, lang)]
      ensures r == HandleReply(server.reply(|old(server.sent)|, Flat(text, speaker, lang)))
      ensures metrics.counts == old(metrics.counts).(cacheMisses := old(metrics.counts).cacheMisses + 1)
    {
      metrics.CountCacheMiss();
      var reply := server.Post(Flat(text, speaker, lang));
      r := HandleReply(reply);
    }

    /** `get_segment_audio_cached`: a resident key answers from the cache
        without running the body; otherwise the body counts a "hit", calls
        `get_segment_audio`, and its value is stored unless it raised. */
    method GetSegmentAudioCached(text: string, speaker: string, lang: string)
      returns (r: Result<Bytes, Failure>, ghost posted: seq<Body>)
      requires Valid()
      modifies server, cache, metrics
      ensures Valid()
      ensures server.sent == old(server.sent) + posted
      ensures metrics.counts == CacheCalls(old(metrics.counts), |posted|)
      ensures var a := SegmentFetch(server.reply, |old(server.sent)|, old(cache.entries), Key(text, speaker, lang), false);
        r == a.result && posted == Posts(Key(text, speaker, lang), a.posts)
      ensures MemoStep(old(cache.entries), cache.entries, Key(text, speaker, lang), r, CacheCapacity)
    {
      var key := Key(text, speaker, lang);
      var found := cache.Lookup(key);
      if found.Some? {
        return Ok(found.value), [];
      }
      metrics.CountCacheHit();
      r := GetSegmentAudio(text, speaker, lang);
      posted := [Flat(text, speaker, lang)];
      if r.Ok? {
        cache.KeysMatchRecency();
        cache.Store(key, r.value);
      }
    }

    /** One segment of `process_segments_parallel`: with a non-empty cache
        the segment is fetched at once, and a failure there is swallowed and
        the segment handed to the pool, which fetches it again; with an empty
        cache it goes to the pool directly. */
    method FetchForGather(segment: string, speaker: string, lang: string)
      returns (outcome: Result<Bytes, Failure>, ghost posted: seq<Body>)
      requires Valid()
      modifies server, cache, metrics
      ensures Valid()
      ensures server.sent == old(server.sent) + posted
      ensures metrics.counts == CacheCalls(old(metrics.counts), |posted|)
      ensures var a := SegmentFetch(server.reply, |old(server.sent)|, old(cache.entries), Key(segment, speaker, lang), true);
        outcome == a.result && posted == Posts(Key(segment, speaker, lang), a.posts)
      ensures MemoStep(old(cache.entries), cache.entries, Key(segment, speaker, lang), outcome, CacheCapacity)
    {
      RetryIsTwoFetches(server.reply, |server.sent|, cache.entries, Key(segment, speaker, lang));
      posted := [];
      if cache.Size() > 0 {
        outcome, posted := GetSegmentAudioCached(segment, speaker, lang);
        if outcome.Ok? {
          return;
        }
      }
      ghost var more;
      outcome, more := GetSegmentAudioCached(segment, speaker, lang);
      posted := posted + more;
    }

    /** `process_segments_parallel`, with the pool run as a sequential
        schedule: one outcome per segment, in segment order, and
        `asyncio.gather` over them, so one failing segment fails the whole
        call. */
    method ProcessSegmentsParallel(segments: seq<string>, speaker: string, lang: string)
      returns (r: Result<seq<Bytes>, Failure>, outcomes: seq<Result<Bytes, Failure>>, ghost posted: seq<Body>,
               ghost memos: seq<map<Key, Bytes>>, ghost offs: seq<nat>, ghost tries: seq<seq<Body>>)
      requires Valid()
      modifies server, cache, metrics
      ensures Valid()
      ensures Traced(server.reply, segments, speaker, lang, true, |segments|, memos, offs, outcomes, tries)
      ensures memos[0] == old(cache.entries) && memos[|segments|] == cache.entries
      ensures offs[0] == |old(server.sent)| && posted == Concat(tries)
      ensures r == Gather(outcomes)
      ensures server.sent == old(server.sent) + posted
      ensures FlatPosts(posted, segments, speaker, lang)
      ensures metrics.counts == CacheCalls(old(metrics.counts), |posted|)
    {
      outcomes, memos, offs, tries := [], [cache.entries], [|server.sent|], [];
      var k := 0;
      while k < |segments|
        invariant 0 <= k <= |segments|
        invariant Traced(server.reply, segments, speaker, lang, true, k, memos, offs, outcomes, tries)
        invariant memos[0] == old(cache.entries) && memos[k] == cache.entries
        invariant offs[0] == |old(server.sent)| && offs[k] == |server.sent|
        invariant server.sent == old(server.sent) + Concat(tries)
        invariant Valid()
        invariant metrics.counts == CacheCalls(old(metrics.counts), |server.sent| - |old(server.sent)|)
      {
        ghost var before := server.sent;
        var outcome, more := FetchForGather(segments[k], speaker, lang);
        RunStep(server.reply, segments, speaker, lang, true, k, memos, offs, outcomes, tries,
                old(server.sent), before, server.sent, cache.entries, outcome, more);
        ghost var end: nat := |server.sent|;
        outcomes, memos, offs, tries := outcomes + [outcome], memos + [cache.entries], offs + [end], tries + [more];
        k := k + 1;
      }
      posted := Concat(tries);
      TracedPostsFlat(server.reply, segments, speaker, lang, true, |segments|, memos, offs, outcomes, tries);
      r := Gather(outcomes);
    }

    /** `generate_audio_stream`: each segment's audio, from the cache or the
        backend, is yielded in 32768-byte slices; a failing segment yields
        nothing and the stream goes on. */
    method GenerateAudioStream(segments: seq<string>, speaker: string, lang: string)
      returns (chunks: seq<Bytes>, ghost outcomes: seq<Result<Bytes, Failure>>, ghost posted: seq<Body>,
               ghost memos: seq<map<Key, Bytes>>, ghost offs: seq<nat>, ghost tries: seq<seq<Body>>)
      requires Valid()
      modifies server, cache, metrics
      ensures Valid()
      ensures Traced(server.reply, segments, speaker, lang, false, |segments|, memos, offs, outcomes, tries)
      ensures memos[0] == old(cache.entries) && memos[|segments|] == cache.entries
      ensures offs[0] == |old(server.sent)| && posted == Concat(tries)
      ensures chunks == SlicedStream(outcomes)
      ensures server.sent == old(server.sent) + posted
      ensures FlatPosts(posted, segments, speaker, lang)
      ensures metrics.counts == CacheCalls(old(metrics.counts), |posted|)
    {
      chunks, outcomes, memos, offs, tries := [], [], [cache.entries], [|server.sent|], [];
      var k := 0;
      while k < |segments|
        invariant 0 <= k <= |segments|
        invariant Traced(server.reply, segments, speaker, lang, false, k, memos, offs, outcomes, tries)
        invariant memos[0] == old(cache.entries) && memos[k] == cache.entries
        invariant offs[0] == |old(server.sent)| && offs[k] == |server.sent|
        invariant server.sent == old(server.sent) + Concat(tries)
        invariant chunks == SlicedStream(outcomes)
        invariant Valid()
        invariant metrics.counts == CacheCalls(old(metrics.counts), |server.sent| - |old(server.sent)|)
      {
        ghost var before := server.sent;
        var outcome, more := GetSegmentAudioCached(segments[k], speaker, lang);
        RunStep(server.reply, segments, speaker, lang, false, k, memos, offs, outcomes, tries,
                old(server.sent), before, server.sent, cache.entries, outcome, more);
        var sliced := SegmentChunks(outcome);
        SlicedStreamAppend(outcomes, outcome);
        chunks := chunks + sliced;
        ghost var end: nat := |server.sent|;
        outcomes, memos, offs, tries := outcomes + [outcome], memos + [cache.entries], offs + [end], tries + [more];
        k := k + 1;
      }
      posted := Concat(tries);
      TracedPostsFlat(server.reply, segments, speaker, lang, false, |segments|, memos, offs, outcomes, tries);
    }

    /** `warm_up_service`, run by the startup hook: each common phrase is
        fetched through the memo with the xiaoming voice and language zh,
        and a failure is logged and swallowed. */
    method WarmUp()
      returns (ghost outcomes: seq<Result<Bytes, Failure>>, ghost memos: seq<map<Key, Bytes>>,
               ghost offs: seq<nat>, ghost tries: seq<seq<Body>>)
      requires Valid()
      modifies server, cache, metrics
      ensures Valid()
      ensures Traced(server.reply, WarmUpPhrases, WarmUpSpeaker, WarmUpLang, false, |WarmUpPhrases|, memos, offs, outcomes, tries)
      ensures memos[0] == old(cache.entries) && memos[|WarmUpPhrases|] == cache.entries
      ensures offs[0] == |old(server.sent)| && server.sent == old(server.sent) + Concat(tries)
      ensures metrics.counts == CacheCalls(old(metrics.counts), |Concat(tries)|)
    {
      outcomes, memos, offs, tries := FetchEach(WarmUpPhrases, WarmUpSpeaker, WarmUpLang);
    }

    /** The loop of `warm_up_service`: each text through the memo in turn,
        a failure swallowed. */
    method FetchEach(texts: seq<string>, speaker: string, lang: string)
      returns (ghost outcomes: seq<Result<Bytes, Failure>>, ghost memos: seq<map<Key, Bytes>>,
               ghost offs: seq<nat>, ghost tries: seq<seq<Body>>)
      requires Valid()
      modifies server, cache, metrics
      ensures Valid()
      ensures Traced(server.reply, texts, speaker, lang, false, |texts|, memos, offs, outcomes, tries)
      ensures memos[0] == old(cache.entries) && memos[|texts|] == cache.entries
      ensures offs[0] == |old(server.sent)| && server.sent == old(server.sent) + Concat(tries)
      ensures metrics.counts == CacheCalls(old(metrics.counts), |Concat(tries)|)
    {
      outcomes, memos, offs, tries := [], [cache.entries], [|server.sent|], [];
      var k := 0;
      while k < |texts|
        invariant 0 <= k <= |texts|
        invariant Traced(server.reply, texts, speaker, lang, false, k, memos, offs, outcomes, tries)
        invariant memos[0] == old(cache.entries) && memos[k] == cache.entries
        invariant offs[0] == |old(server.sent)| && offs[k] == |server.sent|
        invariant server.sent == old(server.sent) + Concat(tries)
        invariant Valid()
        invariant metrics.counts == CacheCalls(old(metrics.counts), |server.sent| - |old(server.sent)|)
      {
        ghost var before := server.sent;
        var outcome, more := GetSegmentAudioCached(texts[k], speaker, lang);
        RunStep(server.reply, texts, speaker, lang, false, k, memos, offs, outcomes, tries,
                old(server.sent), before, server.sent, cache.entries, outcome, more);
        ghost var end: nat := |server.sent|;
        outcomes, memos, offs, tries := outcomes + [outcome], memos + [cache.entries], offs + [end], tries + [more];
        k := k + 1;
      }
    }

    /** The text `create_speech` speaks: the filtered input in the current
        version, the input itself in the earlier one. */
    function SpeechText(input: string): string
      reads this, if filter.Some? then {filter.value} else {}
      requires filter.Some? ==> filter.value.Valid()
    {
      if filter.Some? then filter.value.Output(input) else input
    }

    /** The segments `create_speech` fetches. */
    function Segments(input: string): seq<string>
      reads this, if filter.Some? then {filter.value} else {}
      requires filter.Some? ==> filter.value.Valid()
    {
      Split(SpeechText(input), MaxTextLength)
    }

    /** The audio of a non-streamed `create_speech`: several segments go
        through `process_segments_parallel` and are joined in order, one
        segment is fetched directly; a failure anywhere is raised. */
    method CollectAudio(segments: seq<string>, speaker: string, lang: string)
      returns (audio: Result<Bytes, Failure>, ghost outcomes: seq<Result<Bytes, Failure>>, ghost posted: seq<Body>,
               ghost memos: seq<map<Key, Bytes>>, ghost offs: seq<nat>, ghost tries: seq<seq<Body>>)
      requires Valid() && |segments| >= 1
      modifies server, cache, metrics
      ensures Valid()
      ensures Traced(server.reply, segments, speaker, lang, |segments| > 1, |segments|, memos, offs, outcomes, tries)
      ensures memos[0] == old(cache.entries) && memos[|segments|] == cache.entries
      ensures offs[0] == |old(server.sent)| && posted == Concat(tries)
      ensures audio.Ok? <==> Gather(outcomes).Ok?
      ensures audio.Ok? ==> audio.value == Concat(Gather(outcomes).value)
      ensures server.sent == old(server.sent) + posted
      ensures FlatPosts(posted, segments, speaker, lang)
      ensures metrics.counts == CacheCalls(old(metrics.counts), |posted|)
    {
      if |segments| > 1 {
        var gathered;
        gathered, outcomes, posted, memos, offs, tries := ProcessSegmentsParallel(segments, speaker, lang);
        if gathered.Err? {
          return Err(gathered.error), outcomes, posted, memos, offs, tries;
        }
        var all := Join(gathered.value);
        audio := Ok(all);
      } else {
        audio, posted, memos, offs, tries := FetchSingle(segments, speaker, lang);
        outcomes := [audio];
        GatherSingle(audio);
      }
    }

    /** The single-segment branch of the buffered `create_speech`: one
        call of `get_segment_audio_cached`, seen as a run over one
        segment. */
    method FetchSingle(segments: seq<string>, speaker: string, lang: string)
      returns (audio: Result<Bytes, Failure>, ghost posted: seq<Body>,
               ghost memos: seq<map<Key, Bytes>>, ghost offs: seq<nat>, ghost tries: seq<seq<Body>>)
      requires Valid() && |segments| == 1
      modifies server, cache, metrics
      ensures Valid()
      ensures Traced(server.reply, segments, speaker, lang, false, 1, memos, offs, [audio], tries)
      ensures memos[0] == old(cache.entries) && memos[1] == cache.entries
      ensures offs[0] == |old(server.sent)| && posted == Concat(tries)
      ensures server.sent == old(server.sent) + posted
      ensures FlatPosts(posted, segments, speaker, lang)
      ensures metrics.counts == CacheCalls(old(metrics.counts), |posted|)
    {
      ghost var start: nat := |server.sent|;
      memos, offs := [cache.entries], [start];
      audio, posted := GetSegmentAudioCached(segments[0], speaker, lang);
      RunStep(server.reply, segments, speaker, lang, false, 0, memos, offs, [], [],
              old(server.sent), old(server.sent), server.sent, cache.entries, audio, posted);
      ghost var end: nat := |server.sent|;
      memos, offs, tries := memos + [cache.entries], offs + [end], [posted];
      TracedPostsFlat(server.reply, segments, speaker, lang, false, 1, memos, offs, [audio], tries);
    }

    /** The non-streamed part of `create_speech`: the collected audio with
        its segment count, and its size added to `total_audio_size`; a
        failure becomes 500. */
    method BufferedSpeech(segments: seq<string>, speaker: string, lang: string)
      returns (answer: Answer, ghost outcomes: seq<Result<Bytes, Failure>>, ghost posted: seq<Body>,
               ghost memos: seq<map<Key, Bytes>>, ghost offs: seq<nat>, ghost tries: seq<seq<Body>>)
      requires Valid() && |segments| >= 1
      modifies server, cache, metrics
      ensures Valid()
      ensures Traced(server.reply, segments, speaker, lang, |segments| > 1, |segments|, memos, offs, outcomes, tries)
      ensures memos[0] == old(cache.entries) && memos[|segments|] == cache.entries
      ensures offs[0] == |old(server.sent)| && posted == Concat(tries)
      ensures answer == Respond(false, outcomes)
      ensures |segments| == 1 ==>
        answer == if outcomes[0].Ok? then Buffered(outcomes[0].value, 1) else HttpError(500)
      ensures server.sent == old(server.sent) + posted
      ensures FlatPosts(posted, segments, speaker, lang)
      ensures metrics.counts == Fetched(old(metrics.counts), |posted|, BodySize(answer))
    {
      var audio;
      audio, outcomes, posted, memos, offs, tries := CollectAudio(segments, speaker, lang);
      if |segments| == 1 {
        GatherSingle(outcomes[0]);
        assert outcomes == [outcomes[0]];
      }
      if audio.Err? {
        return HttpError(500), outcomes, posted, memos, offs, tries;
      }
      metrics.CountAudio(|audio.value|);
      answer := Buffered(audio.value, |segments|);
    }

    /** The first steps of `create_speech`: filter the input (current
        version), look the voice up, split the text. */
    method Prepare(req: SpeechRequest) returns (segments: seq<string>, speaker: string, lang: string)
      requires filter.Some? ==> filter.value.Valid()
      ensures segments == Segments(req.input) && |segments| >= 1
      ensures Choice(speaker, lang) == ResolveByName(groups, req.voice)
    {
      var text := req.input;
      if filter.Some? {
        var items;
        text, items := filter.value.FilterText(req.input);
      }
      speaker, lang := ResolveVoiceByName(groups, req.voice);
      segments := SplitText(text, MaxTextLength);
      SplitNonEmpty(text, MaxTextLength);
    }

    /** The answer part of `create_speech`: the request's shape is counted,
        then a streamed request gets the sliced stream and a buffered one
        goes through `BufferedSpeech`. */
    method Speak(stream: bool, segments: seq<string>, speaker: string, lang: string)
      returns (answer: Answer, ghost outcomes: seq<Result<Bytes, Failure>>, ghost posted: seq<Body>,
               ghost memos: seq<map<Key, Bytes>>, ghost offs: seq<nat>, ghost tries: seq<seq<Body>>)
      requires Valid() && |segments| >= 1
      modifies server, cache, metrics
      ensures Valid()
      ensures Traced(server.reply, segments, speaker, lang, !stream && |segments| > 1, |segments|, memos, offs, outcomes, tries)
      ensures memos[0] == old(cache.entries) && memos[|segments|] == cache.entries
      ensures offs[0] == |old(server.sent)| && posted == Concat(tries)
      ensures answer == Respond(stream, outcomes)
      ensures server.sent == old(server.sent) + posted
      ensures FlatPosts(posted, segments, speaker, lang)
      ensures metrics.counts == SpeechCounted(old(metrics.counts), |posted|, stream, |segments|, BodySize(answer))
    {
      metrics.CountRequestShape(stream, |segments|);
      ghost var shaped := metrics.counts;
      assert shaped == Shaped(old(metrics.counts), stream, |segments|);
      if stream {
        var chunks;
        chunks, outcomes, posted, memos, offs, tries := GenerateAudioStream(segments, speaker, lang);
        answer := Streamed(chunks);
        FetchedNothing(shaped, |posted|);
      } else {
        answer, outcomes, posted, memos, offs, tries := BufferedSpeech(segments, speaker, lang);
      }
    }

    /** `create_speech`. The voice is looked up by name, then by id; the
        text is filtered (current version) and split; a streamed request
        gets the sliced stream; a buffered one gets the segments'
        audio joined in order, or 500 when any segment fails. */
    method CreateSpeech(req: SpeechRequest)
      returns (answer: Answer, segments: seq<string>, speaker: string, lang: string,
               ghost outcomes: seq<Result<Bytes, Failure>>, ghost posted: seq<Body>,
               ghost memos: seq<map<Key, Bytes>>, ghost offs: seq<nat>, ghost tries: seq<seq<Body>>)
      requires Valid()
      modifies server, cache, metrics
      ensures Valid()
      ensures segments == Segments(req.input) && |segments| >= 1
      ensures Choice(speaker, lang) == ResolveByName(groups, req.voice)
      ensures Traced(server.reply, segments, speaker, lang, !req.stream && |segments| > 1, |segments|,
                     memos, offs, outcomes, tries)
      ensures memos[0] == old(cache.entries) && memos[|segments|] == cache.entries
      ensures offs[0] == |old(server.sent)| && posted == Concat(tries)
      ensures answer == Respond(req.stream, outcomes)
      ensures server.sent == old(server.sent) + posted
      ensures FlatPosts(posted, segments, speaker, lang)
      ensures metrics.counts == SpeechCounted(old(metrics.counts), |posted|, req.stream, |segments|, BodySize(answer))
    {
      segments, speaker, lang := Prepare(req);
      answer, outcomes, posted, memos, offs, tries := Speak(req.stream, segments, speaker, lang);
    }

    /** A POST to /v1/audio/speech: the key check, the handler, and the
        request-logging middleware around them, which counts the request by
        the status it ends with. An accepted request is answered and
        fetched as `CreateSpeech` states. */
    method ServeSpeech(header: Option<string>, apiKey: string, req: SpeechRequest)
      returns (answer: Answer, ghost segments: seq<string>, ghost speaker: string, ghost lang: string,
               ghost outcomes: seq<Result<Bytes, Failure>>, ghost memos: seq<map<Key, Bytes>>,
               ghost offs: seq<nat>, ghost tries: seq<seq<Body>>)
      requires Valid()
      modifies server, cache, metrics
      ensures Valid()
      ensures VerifyRequired(header, apiKey).Err? ==>
        answer == HttpError(401) && server.sent == old(server.sent) && cache.entries == old(cache.entries)
      ensures VerifyRequired(header, apiKey).Ok? ==>
        segments == Segments(req.input) && Choice(speaker, lang) == ResolveByName(groups, req.voice)
        && Traced(server.reply, segments, speaker, lang, !req.stream && |segments| > 1, |segments|,
                  memos, offs, outcomes, tries)
        && memos[0] == old(cache.entries) && memos[|segments|] == cache.entries
        && offs[0] == |old(server.sent)| && server.sent == old(server.sent) + Concat(tries)
        && answer == Respond(req.stream, outcomes)
      ensures Balanced(old(metrics.counts)) ==> Balanced(metrics.counts)
      ensures metrics.counts.totalRequests == old(metrics.counts).totalRequests + 1
      ensures metrics.counts.successfulRequests == old(metrics.counts).successfulRequests + (if StatusOf(answer) < 400 then 1 else 0)
    {
      segments, speaker, lang, outcomes, memos, offs, tries := [], "", "", [], [cache.entries], [|server.sent|], [];
      if VerifyRequired(header, apiKey).Err? {
        answer := HttpError(401);
      } else {
        ghost var posted;
        var s, sp, lg;
        answer, s, sp, lg, outcomes, posted, memos, offs, tries := CreateSpeech(req);
        segments, speaker, lang := s, sp, lg;
      }
      LogAnswer(answer);
    }

    /** `log_requests` around a handler that answered: the current
        middleware counts the request under `try`, the earlier one without. */
    method LogAnswer(answer: Answer)
      modifies metrics
      ensures metrics.counts == if version == Current then Logged(old(metrics.counts), Responded(StatusOf(answer)))
                                else LoggedNoTry(old(metrics.counts), Responded(StatusOf(answer)))
    {
      var passed;
      if version == Current {
        passed := metrics.LogRequest(Responded(StatusOf(answer)));
      } else {
        passed := metrics.LogRequestNoTry(Responded(StatusOf(answer)));
      }
    }
  }

  /** The answer `create_speech` builds from its segments' outcomes: the
      sliced stream when streamed; otherwise the audio joined in order with
      the segment count, or 500 as soon as one segment failed. */
  function Respond(stream: bool, outcomes: seq<Result<Bytes, Failure>>): (a: Answer)
    ensures stream ==> a.Streamed? && Concat(a.chunks) == Concat(Delivered(outcomes))
    ensures !stream ==> (a.Buffered? <==> forall i :: 0 <= i < |outcomes| ==> outcomes[i].Ok?)
    ensures a.Buffered? ==> a.body == Concat(Delivered(outcomes)) && a.segments == |outcomes|
  {
    GatherKeepsOrder(outcomes);
    SlicedStreamCarriesAudio(outcomes);
    if stream then Streamed(SlicedStream(outcomes))
    else if Gather(outcomes).Ok? then Buffered(Concat(Gather(outcomes).value), |outcomes|)
    else HttpError(500)
  }

  lemma GatherSingle(o: Result<Bytes, Failure>)
    ensures Gather([o]).Ok? <==> o.Ok?
    ensures o.Ok? ==> Concat(Gather([o]).value) == o.value
  {
    assert [o][1..] == [];
    if o.Ok? {
      ConcatSingleton(o.value);
    }
  }

  /** The bodies posted so far stay within the flat bodies for `texts` when
      one more call posts only bodies for `t`, one of them. */
  lemma PostsExtend(posted: seq<Body>, more: seq<Body>, texts: seq<string>, t: string,
                    speaker: string, lang: string)
    requires t in texts
    requires FlatPosts(posted, texts, speaker, lang) && FlatPosts(more, [t], speaker, lang)
    ensures FlatPosts(posted + more, texts, speaker, lang)
  {
  }

  lemma SlicedStreamAppend(outcomes: seq<Result<Bytes, Failure>>, last: Result<Bytes, Failure>)
    ensures SlicedStream(outcomes + [last])
      == SlicedStream(outcomes) + (if last.Ok? then Slices(last.value, ChunkSize) else [])
  {
    if outcomes == [] {
      assert [last][1..] == [];
    } else {
      assert (outcomes + [last])[1..] == outcomes[1..] + [last];
      SlicedStreamAppend(outcomes[1..], last);
    }
  }

  /** The inner loop of `generate_audio_stream`: `audio[i:i + 32768]` for
      `i` in `range(0, len(audio), 32768)`. */
  method SliceAudio(audio: Bytes) returns (chunks: seq<Bytes>)
    ensures chunks == Slices(audio, ChunkSize)
  {
    chunks := [];
    var i := 0;
    while i < |audio|
      invariant 0 <= i <= |audio|
      invariant chunks + Slices(audio[i..], ChunkSize) == Slices(audio, ChunkSize)
      decreases |audio| - i
    {
      var j := if i + ChunkSize < |audio| then i + ChunkSize else |audio|;
      SlicesFrom(audio, ChunkSize, i);
      chunks := chunks + [audio[i..j]];
      i := j;
    }
    assert audio[i..] == [];
  }

  /** What one segment adds to the stream: its slices when it was fetched,
      nothing when the fetch raised. */
  method SegmentChunks(outcome: Result<Bytes, Failure>) returns (sliced: seq<Bytes>)
    ensures sliced == if outcome.Ok? then Slices(outcome.value, ChunkSize) else []
  {
    sliced := [];
    if outcome.Ok? {
      sliced := SliceAudio(outcome.value);
    }
  }

  /** The buffered join: `all_audio_data.extend(audio_data)` for each
      non-empty segment, in order. */
  method Join(parts: seq<Bytes>) returns (all: Bytes)
    ensures all == Concat(parts)
  {
    all := [];
    var k := 0;
    while k < |parts|
      invariant 0 <= k <= |parts|
      invariant all == Concat(parts[..k])
    {
      ConcatAppend(parts[..k], [parts[k]]);
      ConcatSingleton(parts[k]);
      assert parts[..k + 1] == parts[..k] + [parts[k]];
      if parts[k] != [] {
        all := all + parts[k];
      }
      k := k + 1;
    }
    assert parts[..k] == parts;
  }
}
