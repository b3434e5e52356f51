/**
 * The API key of src/index.ts: the OAuth2 callback joins the access and
 * refresh tokens with `:`; reading contacts splits the key on every `:` and
 * keeps the first two pieces.
 */
module ApiKey {
  import opened Wrappers
  import opened JsStrings

  const Separator := ':'

  /** The destructured pair; the refresh token is undefined when the key has a single piece. */
  datatype Tokens = Tokens(accessToken: string, refreshToken: Option<string>)

  /** `${access_token}:${refresh_token}`. */
  function EncodeApiKey(accessToken: string, refreshToken: string): (key: string)
    ensures key == Join([accessToken, refreshToken], Separator)
    ensures |key| == |accessToken| + |refreshToken| + 1
  {
    accessToken + [Separator] + refreshToken
  }

  /**
   * `const [access_token, refresh_token] = apiKey.split(":")`. The access
   * token is the text before the first `:` (the whole key when it has none);
   * the refresh token is the text from there to the next `:` or the end, and
   * exists exactly when the key contains a `:`.
   */
  function DecodeApiKey(key: string): (tokens: Tokens)
    ensures Separator !in tokens.accessToken
    ensures tokens.refreshToken.None? <==> Separator !in key
    ensures tokens.refreshToken.None? ==> tokens.accessToken == key
    ensures tokens.refreshToken.Some? ==>
      var refresh := tokens.refreshToken.value;
      var n := |tokens.accessToken| + 1 + |refresh|;
      && Separator !in refresh
      && n <= |key|
      && key[..n] == tokens.accessToken + [Separator] + refresh
      && (n == |key| || key[n] == Separator)
  {
    var parts := Split(key, Separator);
    SplitFirstPieces(key, Separator);
    Tokens(parts[0], if |parts| > 1 then Some(parts[1]) else None)
  }

  /** Decoding an encoded key gives back both tokens when neither contains `:`. */
  lemma DecodeEncode(accessToken: string, refreshToken: string)
    requires Separator !in accessToken && Separator !in refreshToken
    ensures DecodeApiKey(EncodeApiKey(accessToken, refreshToken)) == Tokens(accessToken, Some(refreshToken))
  {
    SplitJoin([accessToken, refreshToken], Separator);
  }

  /** Whatever follows a second `:` is dropped. */
  lemma DecodeDropsAfterSecondSeparator(accessToken: string, refreshToken: string, tail: string)
    requires Separator !in accessToken && Separator !in refreshToken
    ensures DecodeApiKey(accessToken + [Separator] + refreshToken + [Separator] + tail)
         == Tokens(accessToken, Some(refreshToken))
  {
    var key := accessToken + [Separator] + refreshToken + [Separator] + tail;
    assert key == accessToken + [Separator] + (refreshToken + [Separator] + tail);
    SplitAtFirst(accessToken, refreshToken + [Separator] + tail, Separator);
    SplitAtFirst(refreshToken, tail, Separator);
  }

  /** A refresh token holding `:` does not survive: `acc1` and `sub:ref1` decode to `acc1` and `sub`. */
  lemma ColonInRefreshTokenIsLost()
    ensures DecodeApiKey(EncodeApiKey("acc1", "sub:ref1")) == Tokens("acc1", Some("sub"))
  {
    assert EncodeApiKey("acc1", "sub:ref1") == "acc1" + [Separator] + "sub" + [Separator] + "ref1";
    DecodeDropsAfterSecondSeparator("acc1", "sub", "ref1");
  }

  /** A key without `:` is all access token, with no refresh token. */
  lemma DecodeWithoutSeparator(key: string)
    requires Separator !in key
    ensures DecodeApiKey(key) == Tokens(key, None)
  {
    SplitNoSeparator(key, Separator);
  }
}
