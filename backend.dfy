/** The translate.volcengine.com TTS endpoint as the services see it: the two
    request bodies they post, the replies they can get back, and how a reply
    becomes audio bytes or an error. The network itself is an oracle: the
    reply to the n-th post of a body is `reply(n, body)`. */
module Backend {
  import opened Base

  /** A request body. `Flat` is `{"text", "speaker", "language"}`; `Wrapped`
      is `{"type": "Json", "payload": {"text", "speaker", "language"}}`. */
  datatype Body =
    | Flat(text: string, speaker: string, language: string)
    | Wrapped(text: string, speaker: string, language: string)

  /** The `audio` member of a JSON reply. `NoAudio` stands for a missing or
      falsy `audio` object and for an object without a `data` member; `Audio`
      carries the base64 text of `data` and the result of decoding it
      (`None` when `base64.b64decode` raises). */
  datatype AudioField =
    | NoAudio
    | Audio(data: string, decoded: Option<Bytes>)

  /** The body of a reply: `NotJson` when `response.json()` raises. */
  datatype Payload =
    | NotJson
    | JsonObject(audio: AudioField)

  /** What one `requests.post` does: raise, or return a status, the raw text
      and the parsed body. */
  datatype Reply =
    | Raised(message: string)
    | Replied(status: int, text: string, payload: Payload)

  /** Why fetching a segment's audio failed. */
  datatype Failure =
    | Transport(message: string)        // the post raised; `str(e)`
    | HttpStatus(status: int, text: string)
    | NotJsonBody                       // `response.json()` raised
    | MissingAudio                      // no truthy `audio.data`
    | BadBase64                         // `base64.b64decode` raised
    | AllShapesFailed(last: Failure)    // appV2: "TTS generation failed: " + last error

  /** A 200 reply that carries decodable, non-empty `audio.data`. */
  predicate Delivers(r: Reply)
  {
    r.Replied? && r.status == 200 && r.payload.JsonObject? && r.payload.audio.Audio?
    && r.payload.audio.data != "" && r.payload.audio.decoded.Some?
  }

  /** The part of `get_segment_audio` after a 200: parse the JSON, insist on a
      truthy `audio.data` (an empty string is falsy) and decode it. */
  function DecodeAudio(p: Payload): (r: Result<Bytes, Failure>)
    ensures r.Ok? <==> p.JsonObject? && p.audio.Audio? && p.audio.data != "" && p.audio.decoded.Some?
    ensures r.Ok? ==> r.value == p.audio.decoded.value
    ensures r.Err? ==> r.error in {NotJsonBody, MissingAudio, BadBase64}
  {
    match p
    case NotJson => Err(NotJsonBody)
    case JsonObject(NoAudio) => Err(MissingAudio)
    case JsonObject(Audio(data, decoded)) =>
      if data == "" then Err(MissingAudio)
      else if decoded.None? then Err(BadBase64)
      else Ok(decoded.value)
  }

  /** One post, handled as app.py, appV1.py and volcengine_tts.py do: a
      raised post propagates, a non-200 status raises with the status and
      text, and a 200 is decoded. */
  function HandleReply(r: Reply): (res: Result<Bytes, Failure>)
    ensures res.Ok? <==> Delivers(r)
    ensures Delivers(r) ==> res.value == r.payload.audio.decoded.value
    ensures r.Raised? ==> res == Err(Transport(r.message))
    ensures r.Replied? && r.status != 200 ==> res == Err(HttpStatus(r.status, r.text))
  {
    match r
    case Raised(m) => Err(Transport(m))
    case Replied(status, text, payload) =>
      if status != 200 then Err(HttpStatus(status, text)) else DecodeAudio(payload)
  }

  /** How many posts one segment's fetch made, and what it returned or
      raised. */
  datatype Attempts = Attempts(posts: nat, result: Result<Bytes, Failure>)

  /** The remote endpoint: a fixed reply oracle and the log of the bodies
      posted so far. */
  class Server {
    const reply: (nat, Body) -> Reply
    var sent: seq<Body>

    constructor (reply: (nat, Body) -> Reply)
      ensures this.reply == reply && sent == []
    {
      this.reply := reply;
      sent := [];
    }

    /** The reply the next post of `body` will get. */
    function Next(body: Body): Reply
      reads this
    {
      reply(|sent|, body)
    }

    /** `requests.post(url, json=body)`. */
    method Post(body: Body) returns (r: Reply)
      modifies this
      ensures sent == old(sent) + [body]
      ensures r == reply(|old(sent)|, body)
    {
      r := reply(|sent|, body);
      sent := sent + [body];
    }
  }
}
