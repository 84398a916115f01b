/**
 * The Android onboarding screen's ViewModel: saving the base URL and the
 * API key, validating the key by fetching the link domains, and picking a
 * default domain of each kind. The replies of the three domain requests
 * are parameters.
 */
module AndroidOnboardingViewModel {
  import opened Wrappers
  import AndroidApi
  import opened AndroidPreferences
  import ShortLinkRepository
  import TextShareRepository
  import FileRepository

  datatype OnboardingState = Idle | Validating | Verified | Success | Error(message: string)

  /**
   * The default domain after onboarding's unconditional write: the first
   * fetched domain when there is one, else whatever was stored.
   */
  function Overwritten(result: AndroidApi.Result<seq<string>>, current: Option<string>): (r: Option<string>)
    ensures r != current ==> result.Success? && result.data != [] && r == Some(result.data[0])
    ensures result.Success? && result.data != [] ==> r.Some? && r.value in result.data
  {
    if result.Success? && result.data != [] then Some(result.data[0]) else current
  }

  class OnboardingViewModel {
    var state: OnboardingState
    const storage: SecureStorage
    const prefs: AppPreferences

    constructor (storage: SecureStorage, prefs: AppPreferences)
      ensures state == Idle && this.storage == storage && this.prefs == prefs
    {
      state := Idle;
      this.storage := storage;
      this.prefs := prefs;
    }

    /**
     * `verifyAndContinue`: `Validating`, with the base URL and key saved;
     * then, when the link domains arrive, `Verified`, the three defaults
     * written from the three lists (a failed text or file request is
     * ignored) and `Success`; when they do not, the key is removed again
     * and the state is `Error` with the repository's message. `emitted`
     * lists the states in the order they were published.
     */
    method VerifyAndContinue(baseUrl: string, apiKey: string, linkCall: AndroidApi.Call<AndroidApi.DomainsResponse>,
                             textCall: AndroidApi.Call<AndroidApi.DomainsResponse>,
                             fileCall: AndroidApi.Call<AndroidApi.DomainsResponse>)
      returns (emitted: seq<OnboardingState>)
      modifies this, storage, prefs
      ensures emitted != [] && emitted[0] == Validating && state == emitted[|emitted| - 1]
      ensures var links := ShortLinkRepository.GetDomains(linkCall);
        links.Success? ==>
          && emitted == [Validating, Verified, Success]
          && storage.apiKey == Some(apiKey)
          && prefs.State() == old(prefs.State()).(
               baseUrl := Some(baseUrl),
               defaultLinkDomain := Overwritten(links, old(prefs.defaultLinkDomain)),
               defaultTextDomain := Overwritten(TextShareRepository.GetTextDomains(textCall), old(prefs.defaultTextDomain)),
               defaultFileDomain := Overwritten(FileRepository.GetFileDomains(fileCall), old(prefs.defaultFileDomain)))
      ensures var links := ShortLinkRepository.GetDomains(linkCall);
        links.Error? ==>
          && emitted == [Validating, Error(links.message)]
          && storage.apiKey.None?
          && prefs.State() == old(prefs.State()).(baseUrl := Some(baseUrl))
    {
      state := Validating;
      emitted := [Validating];
      prefs.SetBaseUrl(baseUrl);
      storage.SaveApiKey(apiKey);
      var result := ShortLinkRepository.GetDomains(linkCall);
      match result {
        case Success(domains) =>
          state := Verified;
          emitted := emitted + [Verified];
          StoreDefaults(result, TextShareRepository.GetTextDomains(textCall), FileRepository.GetFileDomains(fileCall));
          state := Success;
          emitted := emitted + [Success];
        case Error(_, message) =>
          storage.ClearApiKey();
          state := Error(message);
          emitted := emitted + [Error(message)];
        case Loading =>
          assert false;
      }
    }

    /** Each list's first domain, when the list arrived and is not empty, becomes that kind's default. */
    method StoreDefaults(links: AndroidApi.Result<seq<string>>, texts: AndroidApi.Result<seq<string>>,
                         files: AndroidApi.Result<seq<string>>)
      modifies prefs
      ensures prefs.State() == old(prefs.State()).(
        defaultLinkDomain := Overwritten(links, old(prefs.defaultLinkDomain)),
        defaultTextDomain := Overwritten(texts, old(prefs.defaultTextDomain)),
        defaultFileDomain := Overwritten(files, old(prefs.defaultFileDomain)))
    {
      if links.Success? && links.data != [] {
        prefs.SetDefaultLinkDomain(links.data[0]);
      }
      if texts.Success? && texts.data != [] {
        prefs.SetDefaultTextDomain(texts.data[0]);
      }
      if files.Success? && files.data != [] {
        prefs.SetDefaultFileDomain(files.data[0]);
      }
    }
  }
}
