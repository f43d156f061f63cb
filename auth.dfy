/** `verify_api_key`, the dependency every speech route runs first. The
    header's value has every "Bearer " removed (`str.replace`, not a prefix
    strip) and must then equal the configured key. app.py refuses a missing
    or empty header; appV1.py and appV2.py let it through. */
module Auth {
  import opened Base
  import opened Strings

  /** The key config.py falls back to when API_KEY is not set, and the key
      the historical app.py hard-codes. */
  const AppKey: string := "sk-564565KDA231D"

  /** The key appV1.py and appV2.py hard-code. */
  const LegacyKey: string := "sk-36565655"

  const Bearer: string := "Bearer "

  /** The two 401 answers: "API key is required" and "Invalid API key". */
  datatype Denial = KeyRequired | InvalidKey

  /** `authorization.replace("Bearer ", "")`. */
  function ProvidedKey(header: string): string
  {
    RemoveAll(header, Bearer)
  }

  /** app.py: an absent or empty header is refused; otherwise the key left
      after removing every "Bearer " must be `apiKey`. */
  function VerifyRequired(header: Option<string>, apiKey: string): (r: Result<(), Denial>)
    ensures r.Ok? <==> header.Some? && header.value != "" && ProvidedKey(header.value) == apiKey
    ensures r == Err(KeyRequired) <==> header.None? || header.value == ""
  {
    if header.None? || header.value == "" then Err(KeyRequired)
    else if ProvidedKey(header.value) != apiKey then Err(InvalidKey)
    else Ok(())
  }

  /** appV1.py and appV2.py: an absent or empty header passes; a present one
      is checked as in app.py. */
  function VerifyOptional(header: Option<string>, apiKey: string): (r: Result<(), Denial>)
    ensures r.Ok? <==> header.None? || header.value == "" || ProvidedKey(header.value) == apiKey
    ensures r.Err? ==> r.error == InvalidKey
  {
    if header.Some? && header.value != "" && ProvidedKey(header.value) != apiKey then Err(InvalidKey)
    else Ok(())
  }

  predicate NoB(s: string)
  {
    forall i :: 0 <= i < |s| ==> s[i] != 'B'
  }

  /** The two checks differ only on an absent or empty header. */
  lemma ChecksDifferOnlyWithoutHeader(header: Option<string>, apiKey: string)
    ensures header.Some? && header.value != "" ==> VerifyRequired(header, apiKey) == VerifyOptional(header, apiKey)
    ensures header.None? || header.value == "" ==>
      VerifyRequired(header, apiKey) == Err(KeyRequired) && VerifyOptional(header, apiKey) == Ok(())
  {
  }

  /** A key without a 'B' is accepted both bare and after "Bearer ". */
  lemma BearerAndBareKeyAccepted(key: string)
    requires key != "" && NoB(key)
    ensures VerifyRequired(Some(Bearer + key), key) == Ok(())
    ensures VerifyRequired(Some(key), key) == Ok(())
    ensures VerifyOptional(Some(Bearer + key), key) == Ok(())
  {
    RemoveAllAbsent(key, Bearer);
    RemoveAllInside([], Bearer, key);
    assert [] + Bearer + key == Bearer + key;
  }

  /** "Bearer " is removed wherever it occurs, so it may even sit inside the
      key. */
  lemma EmbeddedBearerIgnored(a: string, b: string)
    requires a != [] && NoB(a) && NoB(b)
    ensures VerifyRequired(Some(a + Bearer + b), a + b) == Ok(())
    ensures VerifyOptional(Some(a + Bearer + b), a + b) == Ok(())
  {
    RemoveAllInside(a, Bearer, b);
    RemoveAllAbsent(b, Bearer);
  }

  /** The scheme is matched case-sensitively: "bearer " + key is refused. */
  lemma LowerCaseSchemeRefused(key: string)
    requires NoB(key)
    ensures VerifyRequired(Some("bearer " + key), key) == Err(InvalidKey)
    ensures VerifyOptional(Some("bearer " + key), key) == Err(InvalidKey)
  {
    var h := "bearer " + key;
    assert NoB(h);
    RemoveAllAbsent(h, Bearer);
    assert |ProvidedKey(h)| == |key| + 7;
  }

  /** The default key of app.py has no 'B', so it is accepted bare and
      after "Bearer ". */
  lemma AppKeyAccepted()
    ensures VerifyRequired(Some(Bearer + AppKey), AppKey) == Ok(())
    ensures VerifyRequired(Some(AppKey), AppKey) == Ok(())
  {
    assert NoB(AppKey);
    BearerAndBareKeyAccepted(AppKey);
  }

  /** So is the key of appV1.py and appV2.py. */
  lemma LegacyKeyAccepted()
    ensures VerifyOptional(Some(Bearer + LegacyKey), LegacyKey) == Ok(())
    ensures VerifyOptional(Some(LegacyKey), LegacyKey) == Ok(())
  {
    assert NoB(LegacyKey);
    BearerAndBareKeyAccepted(LegacyKey);
  }

  /** appV2.py accepts its key with "Bearer " in the middle of it. */
  lemma LegacyKeySplitByBearer()
    ensures LegacyKey == LegacyKey[..6] + LegacyKey[6..]
    ensures VerifyOptional(Some(LegacyKey[..6] + Bearer + LegacyKey[6..]), LegacyKey) == Ok(())
  {
    var a, b := LegacyKey[..6], LegacyKey[6..];
    assert a + b == LegacyKey;
    EmbeddedBearerIgnored(a, b);
  }
}
