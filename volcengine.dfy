/** `VolcengineTTS.tts` of volcengine_tts.py, up to the decoded audio: the
    language code is checked against `language_map`, mapped to the backend's
    code, a missing or empty speaker is replaced by the language's default,
    and the flat body is posted once. Its two tables are the shipped
    `LANGUAGE_MAP` and `DEFAULT_SPEAKERS`. */
module Volcengine {
  import opened Base
  import opened Backend
  import opened Voices

  /** Why `tts` raised: a `ValueError` for an unsupported language, or the
      failure of the request. */
  datatype TtsError = UnsupportedLanguage(lang: string) | RequestFailed(failure: Failure)

  /** `if not speaker: speaker = self.default_speakers[lang]`. */
  function SpeakerFor(lang: string, speaker: Option<string>): string
    requires lang in DefaultSpeakers
  {
    if speaker.None? || speaker.value == "" then DefaultSpeakers[lang] else speaker.value
  }

  /** The body `tts` posts, or the `ValueError` it raises before posting. */
  function RequestBody(text: string, lang: string, speaker: Option<string>): (r: Result<Body, TtsError>)
    ensures r.Err? <==> lang !in LanguageMap
    ensures r.Err? ==> r.error == UnsupportedLanguage(lang)
    ensures r.Ok? ==> r.value.Flat? && r.value.text == text && r.value.language == LanguageMap[lang]
    ensures r.Ok? && speaker.Some? && speaker.value != "" ==> r.value.speaker == speaker.value
    ensures r.Ok? && (speaker.None? || speaker.value == "") ==> r.value.speaker == DefaultSpeakers[lang]
  {
    if lang !in LanguageMap then Err(UnsupportedLanguage(lang))
    else
      VoicesTablesAgree();
      Ok(Flat(text, SpeakerFor(lang, speaker), LanguageMap[lang]))
  }

  /** The two tables of `__init__` have the same keys, so the default lookup
      cannot fail for a language that passed the check. */
  lemma VoicesTablesAgree()
    ensures DefaultSpeakers.Keys == LanguageMap.Keys
  {
    ShippedTablesCohere();
  }

  /** Three codes the backend spells differently. */
  lemma BackendCodes()
    ensures RequestBody("", "ja", None).value.language == "jp"
    ensures RequestBody("", "ko", None).value.language == "kr"
    ensures RequestBody("", "hi", None).value.language == "id"
  {
  }

  /** `tts` up to the decoded audio: the check raises before anything is
      posted; otherwise one post whose reply is handled as the services
      handle it. */
  method Tts(server: Server, text: string, lang: string, speaker: Option<string>)
    returns (r: Result<Bytes, TtsError>)
    modifies server
    ensures lang !in LanguageMap ==> r == Err(UnsupportedLanguage(lang)) && server.sent == old(server.sent)
    ensures lang in LanguageMap ==>
      var body := RequestBody(text, lang, speaker).value;
      server.sent == old(server.sent) + [body]
      && r == match HandleReply(server.reply(|old(server.sent)|, body))
              case Ok(audio) => Ok(audio)
              case Err(f) => Err(RequestFailed(f))
  {
    if lang !in LanguageMap {
      return Err(UnsupportedLanguage(lang));
    }
    var language := LanguageMap[lang];
    var chosen := speaker;
    if chosen.None? || chosen.value == "" {
      VoicesTablesAgree();
      chosen := Some(DefaultSpeakers[lang]);
    }
    var reply := server.Post(Flat(text, chosen.value, language));
    match HandleReply(reply) {
      case Ok(audio) => r := Ok(audio);
      case Err(f) => r := Err(RequestFailed(f));
    }
  }
}
