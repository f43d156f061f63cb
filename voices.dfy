/** The voice tables every service ships (`VOICE_CONFIG`, `LANGUAGE_MAP`,
    `DEFAULT_SPEAKERS`; the copies in config.py, app.py, appV1.py, appV2.py
    and volcengine_tts.py hold the same entries in the same order) and the
    two ways a requested `voice` is turned into a speaker id and a backend
    language: app.py looks for a display name first and then for an id,
    appV1.py and appV2.py look for an id only. */
module Voices {
  import opened Base

  /** One entry of a `VOICE_CONFIG` group: speaker id and display name. */
  datatype Voice = Voice(id: string, name: string)

  /** A `VOICE_CONFIG` group: a language code and its voices, in dictionary
      order. */
  datatype Group = Group(code: string, voices: seq<Voice>)

  /** A resolved request: the speaker id and the backend language. */
  datatype Choice = Choice(speaker: string, lang: string)

  const VoiceConfig: seq<Group> := [
    Group("zh_cn", ZhCnVoices),
    Group("en", EnVoices),
    Group("ja", JaVoices),
    Group("ko", KoVoices),
    Group("fr", FrVoices),
    Group("es", EsVoices),
    Group("ru", RuVoices),
    Group("de", DeVoices),
    Group("it", ItVoices),
    Group("tr", TrVoices),
    Group("pt_pt", PtPtVoices),
    Group("pt_br", PtBrVoices),
    Group("vi", ViVoices),
    Group("ms", MsVoices),
    Group("ar", ArVoices),
    Group("hi", HiVoices)]

  const ZhCnVoices: seq<Voice> := [
    Voice("zh_male_rap", "嘻哈歌手"),
    Voice("zh_female_sichuan", "四川女声"),
    Voice("tts.other.BV021_streaming", "东北男声"),
    Voice("tts.other.BV026_streaming", "粤语男声"),
    Voice("tts.other.BV025_streaming", "台湾女声"),
    Voice("zh_male_xiaoming", "影视配音"),
    Voice("zh_male_zhubo", "男主播"),
    Voice("zh_female_zhubo", "女主播"),
    Voice("zh_female_qingxin", "清新女声"),
    Voice("zh_female_story", "少儿故事")]

  const EnVoices: seq<Voice> := [
    Voice("en_male_adam", "美式男声"),
    Voice("tts.other.BV027_streaming", "美式女声"),
    Voice("en_male_bob", "英式男声"),
    Voice("tts.other.BV032_TOBI_streaming", "英式女声"),
    Voice("tts.other.BV516_streaming", "澳洲男声"),
    Voice("en_female_sarah", "澳洲女声")]

  const JaVoices: seq<Voice> := [
    Voice("jp_male_satoshi", "日语男声"),
    Voice("jp_female_mai", "日语女声")]

  const KoVoices: seq<Voice> := [
    Voice("kr_male_gye", "韩语男声"),
    Voice("tts.other.BV059_streaming", "韩语女声")]

  const FrVoices: seq<Voice> := [
    Voice("fr_male_enzo", "法语男声"),
    Voice("tts.other.BV078_streaming", "法语女声")]

  const EsVoices: seq<Voice> := [
    Voice("es_male_george", "西语男声"),
    Voice("tts.other.BV065_streaming", "西语女声")]

  const RuVoices: seq<Voice> := [
    Voice("tts.other.BV068_streaming", "俄语女声")]

  const DeVoices: seq<Voice> := [
    Voice("de_female_sophie", "德语女声")]

  const ItVoices: seq<Voice> := [
    Voice("tts.other.BV087_streaming", "意语男声")]

  const TrVoices: seq<Voice> := [
    Voice("tts.other.BV083_streaming", "土耳其男声")]

  const PtPtVoices: seq<Voice> := [
    Voice("tts.other.BV531_streaming", "葡语男声"),
    Voice("pt_female_alice", "葡语女声")]

  const PtBrVoices: seq<Voice> := [
    Voice("tts.other.BV531_streaming", "葡语男声"),
    Voice("pt_female_alice", "葡语女声")]

  const ViVoices: seq<Voice> := [
    Voice("tts.other.BV075_streaming", "越南男声"),
    Voice("tts.other.BV074_streaming", "越南女声")]

  const MsVoices: seq<Voice> := [
    Voice("tts.other.BV092_streaming", "马来女声")]

  const ArVoices: seq<Voice> := [
    Voice("tts.other.BV570_streaming", "阿语男声")]

  const HiVoices: seq<Voice> := [
    Voice("tts.other.BV160_streaming", "印尼男声"),
    Voice("id_female_noor", "印尼女声")]

  const LanguageMap: map<string, string> := map[
    "zh_cn" := "zh",
    "zh_tw" := "zh",
    "en" := "en",
    "ja" := "jp",
    "ko" := "kr",
    "fr" := "fr",
    "es" := "es",
    "ru" := "ru",
    "de" := "de",
    "it" := "it",
    "tr" := "tr",
    "pt_pt" := "pt",
    "pt_br" := "pt",
    "vi" := "vi",
    "ms" := "ms",
    "ar" := "ar",
    "hi" := "id"]

  const DefaultSpeakers: map<string, string> := map[
    "zh_cn" := "zh_male_xiaoming",
    "zh_tw" := "zh_male_xiaoming",
    "en" := "en_male_adam",
    "ja" := "jp_male_satoshi",
    "ko" := "kr_male_gye",
    "fr" := "fr_male_enzo",
    "es" := "es_male_george",
    "ru" := "tts.other.BV068_streaming",
    "de" := "de_female_sophie",
    "it" := "tts.other.BV087_streaming",
    "tr" := "tts.other.BV083_streaming",
    "pt_pt" := "pt_female_alice",
    "pt_br" := "pt_female_alice",
    "vi" := "tts.other.BV074_streaming",
    "ms" := "tts.other.BV092_streaming",
    "ar" := "tts.other.BV570_streaming",
    "hi" := "id_female_noor"]

  /** `DEFAULT_SPEAKERS["zh_cn"]`, the speaker used for an unknown voice. */
  const DefaultSpeaker: string := "zh_male_xiaoming"

  /** `LANGUAGE_MAP.get(code, "zh")`. */
  function LanguageOf(code: string): string
  {
    if code in LanguageMap then LanguageMap[code] else "zh"
  }

  /** The choice made when the voice is not found. */
  const Fallback: Choice := Choice(DefaultSpeaker, "zh")

  /** `id in voice_dict`: `id` is a key of the group's dictionary. */
  predicate HasId(voices: seq<Voice>, id: string)
  {
    exists k :: 0 <= k < |voices| && voices[k].id == id
  }

  /** `id` is a speaker id of some group of the table. */
  predicate Known(groups: seq<Group>, id: string)
  {
    exists i :: 0 <= i < |groups| && HasId(groups[i].voices, id)
  }

  /** The position of the first voice of `voices` whose display name is
      `name`. */
  function FindName(voices: seq<Voice>, name: string): (r: Option<nat>)
    ensures r.Some? ==> r.value < |voices| && voices[r.value].name == name
    ensures r.Some? ==> forall k :: 0 <= k < r.value ==> voices[k].name != name
    ensures r.None? ==> forall k :: 0 <= k < |voices| ==> voices[k].name != name
  {
    if voices == [] then None
    else if voices[0].name == name then Some(0)
    else match FindName(voices[1..], name)
      case None => None
      case Some(k) => Some(k + 1)
  }

  /** app.py: in table order, each group is searched by display name and
      then by id; the first group that knows the voice decides; otherwise
      the default speaker and "zh". */
  function ResolveByName(groups: seq<Group>, voice: string): Choice
  {
    ByNameFrom(groups, 0, voice)
  }

  /** `ResolveByName` over the groups from position `i` on. */
  function ByNameFrom(groups: seq<Group>, i: nat, voice: string): Choice
    requires i <= |groups|
    decreases |groups| - i
  {
    if i == |groups| then Fallback
    else
      var g := groups[i];
      match FindName(g.voices, voice)
      case Some(k) => Choice(g.voices[k].id, LanguageOf(g.code))
      case None =>
        if HasId(g.voices, voice) then Choice(voice, LanguageOf(g.code))
        else ByNameFrom(groups, i + 1, voice)
  }

  /** appV1.py and appV2.py: the first group having `voice` as an id gives the
      language; a voice no group has is replaced by the default speaker. */
  function ResolveById(groups: seq<Group>, voice: string): Choice
  {
    ByIdFrom(groups, 0, voice)
  }

  /** `ResolveById` over the groups from position `i` on. */
  function ByIdFrom(groups: seq<Group>, i: nat, voice: string): Choice
    requires i <= |groups|
    decreases |groups| - i
  {
    if i == |groups| then Fallback
    else if HasId(groups[i].voices, voice) then Choice(voice, LanguageOf(groups[i].code))
    else ByIdFrom(groups, i + 1, voice)
  }

  /** The voice lookup of app.py's `create_speech`: a name loop and an id
      test per group, with a found flag. */
  method ResolveVoiceByName(groups: seq<Group>, voice: string) returns (speaker: string, lang: string)
    ensures Choice(speaker, lang) == ResolveByName(groups, voice)
  {
    lang := "zh";
    speaker := voice;
    var found := false;
    var i := 0;
    while i < |groups|
      invariant 0 <= i <= |groups|
      invariant !found && speaker == voice && lang == "zh"
      invariant ByNameFrom(groups, i, voice) == ResolveByName(groups, voice)
    {
      var g := groups[i];
      var j := 0;
      while j < |g.voices|
        invariant 0 <= j <= |g.voices|
        invariant !found && speaker == voice && lang == "zh"
        invariant forall k :: 0 <= k < j ==> g.voices[k].name != voice
      {
        if g.voices[j].name == speaker {
          speaker := g.voices[j].id;
          lang := LanguageOf(g.code);
          found := true;
          break;
        }
        j := j + 1;
      }
      if !found && speaker in IdsOf(g.voices) {
        lang := LanguageOf(g.code);
        found := true;
      }
      if found {
        return;
      }
      i := i + 1;
    }
    lang := "zh";
    speaker := DefaultSpeaker;
  }

  /** The keys of a group's dictionary. */
  function IdsOf(voices: seq<Voice>): (r: set<string>)
    ensures forall id :: id in r <==> HasId(voices, id)
  {
    set k | 0 <= k < |voices| :: voices[k].id
  }

  /** The voice lookup of appV1.py's and appV2.py's `create_speech`: a first
      loop sets the language, a second scan (`any`) decides the fallback. */
  method ResolveVoiceById(groups: seq<Group>, voice: string) returns (speaker: string, lang: string)
    ensures Choice(speaker, lang) == ResolveById(groups, voice)
  {
    lang := "zh";
    speaker := voice;
    var i := 0;
    while i < |groups|
      invariant 0 <= i <= |groups|
      invariant lang == "zh"
      invariant forall m :: 0 <= m < i ==> !HasId(groups[m].voices, voice)
      invariant ByIdFrom(groups, i, voice) == ResolveById(groups, voice)
    {
      if speaker in IdsOf(groups[i].voices) {
        lang := LanguageOf(groups[i].code);
        break;
      }
      i := i + 1;
    }
    var known := false;
    var k := 0;
    while k < |groups| && !known
      invariant 0 <= k <= |groups|
      invariant known <==> exists m :: 0 <= m < k && HasId(groups[m].voices, voice)
    {
      known := speaker in IdsOf(groups[k].voices);
      k := k + 1;
    }
    if !known {
      lang := "zh";
      speaker := DefaultSpeaker;
    }
  }

  /** Every voice, group by group. */
  predicate InTable(groups: seq<Group>, v: Voice)
  {
    exists i :: 0 <= i < |groups| && v in groups[i].voices
  }

  /** From position `i` on, the name-first lookup ends on a speaker id of
      the table or on the fallback. */
  lemma {:induction false} ByNameFromKnown(groups: seq<Group>, i: nat, voice: string)
    requires i <= |groups|
    ensures ByNameFrom(groups, i, voice) == Fallback || Known(groups, ByNameFrom(groups, i, voice).speaker)
    decreases |groups| - i
  {
    if i < |groups| {
      var g := groups[i];
      match FindName(g.voices, voice)
      case Some(k) =>
        assert HasId(g.voices, g.voices[k].id);
      case None =>
        if !HasId(g.voices, voice) {
          ByNameFromKnown(groups, i + 1, voice);
        }
    }
  }

  /** The name-first lookup always ends on a speaker id of the table or on
      the fallback. */
  lemma ByNameGivesKnownSpeaker(groups: seq<Group>, voice: string)
    ensures ResolveByName(groups, voice) == Fallback || Known(groups, ResolveByName(groups, voice).speaker)
  {
    ByNameFromKnown(groups, 0, voice);
  }

  lemma {:induction false} ByIdFromKeeps(groups: seq<Group>, i: nat, voice: string)
    requires i <= |groups|
    ensures (exists m :: i <= m < |groups| && HasId(groups[m].voices, voice))
      ==> ByIdFrom(groups, i, voice).speaker == voice
    ensures (forall m :: i <= m < |groups| ==> !HasId(groups[m].voices, voice))
      ==> ByIdFrom(groups, i, voice) == Fallback
    decreases |groups| - i
  {
    if i < |groups| && !HasId(groups[i].voices, voice) {
      ByIdFromKeeps(groups, i + 1, voice);
    }
  }

  /** The id-only lookup keeps a known id, and replaces only an unknown one. */
  lemma ByIdKeepsKnownIds(groups: seq<Group>, voice: string)
    ensures Known(groups, voice) ==> ResolveById(groups, voice).speaker == voice
    ensures !Known(groups, voice) ==> ResolveById(groups, voice) == Fallback
  {
    ByIdFromKeeps(groups, 0, voice);
  }

  /** When no display name equals `voice`, the two lookups agree from
      position `i` on. */
  lemma {:induction false} ByNameFromAgrees(groups: seq<Group>, i: nat, voice: string)
    requires i <= |groups|
    requires forall v :: InTable(groups, v) ==> v.name != voice
    ensures ByNameFrom(groups, i, voice) == ByIdFrom(groups, i, voice)
    decreases |groups| - i
  {
    if i < |groups| {
      var r := FindName(groups[i].voices, voice);
      if r.Some? {
        assert InTable(groups, groups[i].voices[r.value]);
      }
      ByNameFromAgrees(groups, i + 1, voice);
    }
  }

  /** When no display name equals `voice`, app.py's lookup and the id-only
      lookup of appV1.py and appV2.py make the same choice. */
  lemma ResolversAgreeOffNames(groups: seq<Group>, voice: string)
    requires forall v :: InTable(groups, v) ==> v.name != voice
    ensures ResolveByName(groups, voice) == ResolveById(groups, voice)
  {
    ByNameFromAgrees(groups, 0, voice);
  }

  /** A voice that is neither a display name nor an id of the table gets the
      default speaker and "zh" from both lookups. */
  lemma UnknownVoiceFallsBack(groups: seq<Group>, voice: string)
    requires forall v :: InTable(groups, v) ==> v.name != voice && v.id != voice
    ensures ResolveByName(groups, voice) == Fallback
    ensures ResolveById(groups, voice) == Fallback
  {
    forall i | 0 <= i < |groups| ensures !HasId(groups[i].voices, voice) {
      forall k | 0 <= k < |groups[i].voices| ensures groups[i].voices[k].id != voice {
        assert InTable(groups, groups[i].voices[k]);
      }
    }
    ByIdKeepsKnownIds(groups, voice);
    ResolversAgreeOffNames(groups, voice);
  }

  /** The first group that has `voice` as an id decides its language, even
      when later groups list the same id. */
  lemma {:induction false} FirstGroupDecides(groups: seq<Group>, i: nat, voice: string)
    requires i < |groups| && HasId(groups[i].voices, voice)
    requires forall m :: 0 <= m < i ==> !HasId(groups[m].voices, voice)
    ensures ResolveById(groups, voice) == Choice(voice, LanguageOf(groups[i].code))
  {
    var j := i;
    while j > 0
      invariant 0 <= j <= i
      invariant ByIdFrom(groups, j, voice) == Choice(voice, LanguageOf(groups[i].code))
    {
      j := j - 1;
    }
  }

  /** The shipped tables fit together: every language code has a default
      speaker and vice versa, and every group's code is mapped. */
  lemma ShippedTablesCohere()
    ensures DefaultSpeakers.Keys == LanguageMap.Keys
    ensures forall g :: g in VoiceConfig ==> g.code in LanguageMap
  {
  }

  /** None of the ten groups before pt_pt has "pt_female_alice". */
  lemma AliceNotBefore(k: nat)
    requires k < 10
    ensures !HasId(VoiceConfig[k].voices, "pt_female_alice")
  {
    if k == 0 {
      assert VoiceConfig[0].voices == ZhCnVoices;
    } else if k == 1 {
      assert VoiceConfig[1].voices == EnVoices;
    } else if k == 2 {
      assert VoiceConfig[2].voices == JaVoices;
    } else if k == 3 {
      assert VoiceConfig[3].voices == KoVoices;
    } else if k == 4 {
      assert VoiceConfig[4].voices == FrVoices;
    } else if k == 5 {
      assert VoiceConfig[5].voices == EsVoices;
    } else if k == 6 {
      assert VoiceConfig[6].voices == RuVoices;
    } else if k == 7 {
      assert VoiceConfig[7].voices == DeVoices;
    } else if k == 8 {
      assert VoiceConfig[8].voices == ItVoices;
    } else if k == 9 {
      assert VoiceConfig[9].voices == TrVoices;
    }
  }

  /** "pt_female_alice" is an id of both pt_pt and pt_br; pt_pt comes first,
      so the id-only lookup chooses "pt". */
  lemma AliceIsPortugal()
    ensures ResolveById(VoiceConfig, "pt_female_alice") == Choice("pt_female_alice", "pt")
  {
    forall m | 0 <= m < 10 ensures !HasId(VoiceConfig[m].voices, "pt_female_alice") {
      AliceNotBefore(m);
    }
    assert VoiceConfig[10] == Group("pt_pt", PtPtVoices);
    assert PtPtVoices[1].id == "pt_female_alice";
    assert VoiceConfig[11] == Group("pt_br", PtBrVoices);
    assert PtBrVoices[1].id == "pt_female_alice";
    FirstGroupDecides(VoiceConfig, 10, "pt_female_alice");
  }

  /** With the shipped table both lookups always end on a configured
      speaker id: the fallback "zh_male_xiaoming" is itself a zh_cn voice. */
  lemma ShippedLookupsGiveConfiguredSpeakers(voice: string)
    ensures Known(VoiceConfig, ResolveByName(VoiceConfig, voice).speaker)
    ensures Known(VoiceConfig, ResolveById(VoiceConfig, voice).speaker)
  {
    assert VoiceConfig[0].voices == ZhCnVoices;
    assert ZhCnVoices[5].id == DefaultSpeaker;
    assert Known(VoiceConfig, DefaultSpeaker) by {
      assert HasId(VoiceConfig[0].voices, DefaultSpeaker);
    }
    ByNameGivesKnownSpeaker(VoiceConfig, voice);
    ByIdKeepsKnownIds(VoiceConfig, voice);
  }
}
