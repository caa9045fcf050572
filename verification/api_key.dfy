/** The `verifyApiKey` middleware of `src/middlewares/api-key.middleware.ts`:
    a request passes on to the next handler only with the configured system
    key in its `py-api-key` header. Its replies always use the English
    message table. */
module ApiKey {
  import opened Common
  import opened Http

  /** What a middleware does with a request: hand it on, or answer it. */
  datatype Gate = Next | Replied(response: Response<()>)

  /** `verifyApiKey`, with the `SYSTEM_API_KEY` setting and the header as
      parameters (`None` when unset). */
  function VerifyApiKey(systemApiKey: Option<string>, apiKey: Option<string>): (r: Gate)
    ensures r.Next? <==> Truthy(systemApiKey) && apiKey == systemApiKey
    ensures !Truthy(systemApiKey) ==> r == Replied(Fail(ServerError, InternalError, NoDetails))
    ensures Truthy(systemApiKey) && !Truthy(apiKey) ==> r == Replied(Fail(UnauthorizedStatus, NoApiKeyProvided, NoDetails))
    ensures Truthy(systemApiKey) && Truthy(apiKey) && apiKey != systemApiKey
            ==> r == Replied(Fail(UnauthorizedStatus, Unauthorized, NoDetails))
  {
    if !Truthy(systemApiKey) then Replied(Fail(ServerError, InternalError, NoDetails))
    else if !Truthy(apiKey) then Replied(Fail(UnauthorizedStatus, NoApiKeyProvided, NoDetails))
    else if apiKey.value != systemApiKey.value then Replied(Fail(UnauthorizedStatus, Unauthorized, NoDetails))
    else Next
  }

  /** The setting is checked before the header: without a configured key
      no header changes the reply, not even one that is itself empty. */
  lemma SettingCheckedFirst(systemApiKey: Option<string>, a: Option<string>, b: Option<string>)
    requires !Truthy(systemApiKey)
    ensures VerifyApiKey(systemApiKey, a) == VerifyApiKey(systemApiKey, b)
    ensures VerifyApiKey(systemApiKey, a).Replied? && VerifyApiKey(systemApiKey, a).response.status == ServerError
  {
  }

  /** With a configured key, exactly one header value lets a request pass,
      and every refusal is a 401. */
  lemma OnlyTheKeyPasses(key: string, apiKey: Option<string>)
    requires key != ""
    ensures VerifyApiKey(Some(key), Some(key)) == Next
    ensures apiKey != Some(key) ==> VerifyApiKey(Some(key), apiKey).Replied?
                                    && VerifyApiKey(Some(key), apiKey).response.status == UnauthorizedStatus
  {
  }
}
