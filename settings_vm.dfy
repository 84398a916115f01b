/**
 * The Android settings screen's ViewModel: the key-validation state
 * machine, the domain lists and the defaults picked from them, the values
 * shown before the preferences are first read, and clearing the three
 * local histories. The replies of the domain requests are parameters.
 */
module AndroidSettingsViewModel {
  import opened Wrappers
  import AndroidApi
  import opened AndroidPreferences
  import ShortLinkRepository
  import TextShareRepository
  import FileRepository
  import Onboarding = AndroidOnboardingViewModel

  datatype ValidationState = Idle | Validating | Valid | Invalid(message: string)

  /** The preference values the settings screen shows. */
  datatype SettingsValues = SettingsValues(
    baseUrl: string,
    themeMode: string,
    dynamicColor: bool,
    fileLinkDisplayType: string,
    defaultLinkDomain: Option<string>,
    defaultTextDomain: Option<string>,
    defaultFileDomain: Option<string>)

  /** The values the settings flows hold before the preferences are first read. */
  const InitialValues := SettingsValues("https://s.ee/api/v1/", "system", true, "DIRECT_LINK", None, None, None)

  /** The values the settings flows hold once the preferences are read. */
  function Shown(p: StoredPrefs): (r: SettingsValues)
    ensures r.baseUrl == p.BaseUrl() && r.themeMode == p.ThemeMode() && r.dynamicColor == p.DynamicColor()
    ensures r.fileLinkDisplayType == p.FileLinkDisplayType()
    ensures r.defaultLinkDomain == p.defaultLinkDomain && r.defaultTextDomain == p.defaultTextDomain
    ensures r.defaultFileDomain == p.defaultFileDomain
  {
    SettingsValues(p.BaseUrl(), p.ThemeMode(), p.DynamicColor(), p.FileLinkDisplayType(), p.defaultLinkDomain,
                   p.defaultTextDomain, p.defaultFileDomain)
  }

  /**
   * The screen's first values are exactly what an untouched store reads
   * as, so a fresh install shows no jump when the preferences arrive.
   */
  lemma InitialValuesAreStoreDefaults()
    ensures InitialValues == Shown(EmptyStore)
  {
    EmptyStoreReadsDefaults();
  }

  /**
   * The default domain after `loadDomains`: the first fetched domain, but
   * only when no default was set and the list is not empty.
   */
  function FilledIfUnset(result: AndroidApi.Result<seq<string>>, current: Option<string>): (r: Option<string>)
    ensures current.Some? ==> r == current
    ensures r.Some? ==> current.Some? || (result.Success? && r.value in result.data)
  {
    if current.None? && result.Success? && result.data != [] then Some(result.data[0]) else current
  }

  /**
   * Settings never replaces a default the user or onboarding chose; on a
   * store with no default it picks what onboarding would; and a second
   * load leaves a filled default as it is.
   */
  lemma FillingKeepsChosenDefaults(result: AndroidApi.Result<seq<string>>, later: AndroidApi.Result<seq<string>>,
                                   current: Option<string>)
    ensures current.Some? ==> FilledIfUnset(result, current) == current
    ensures current.None? ==> FilledIfUnset(result, current) == Onboarding.Overwritten(result, current)
    ensures FilledIfUnset(result, current).Some? ==>
      FilledIfUnset(later, FilledIfUnset(result, current)) == FilledIfUnset(result, current)
    ensures current.Some? && result.Success? && result.data != [] && result.data[0] != current.value ==>
      FilledIfUnset(result, current) != Onboarding.Overwritten(result, current)
  {
  }

  /** A fetched list when the request succeeded, else the list shown before. */
  function Refreshed(result: AndroidApi.Result<seq<string>>, shown: seq<string>): (r: seq<string>)
    ensures result.Success? ==> r == result.data
    ensures !result.Success? ==> r == shown
  {
    if result.Success? then result.data else shown
  }

  datatype Fields = Fields(
    hasApiKey: bool,
    validationState: ValidationState,
    linkDomains: seq<string>,
    textDomains: seq<string>,
    fileDomains: seq<string>)

  class SettingsViewModel {
    var hasApiKey: bool
    var validationState: ValidationState
    var linkDomains: seq<string>
    var textDomains: seq<string>
    var fileDomains: seq<string>
    const storage: SecureStorage
    const prefs: AppPreferences
    const linkRepository: ShortLinkRepository.ShortLinkRepository
    const textRepository: TextShareRepository.TextShareRepository
    const fileRepository: FileRepository.FileRepository

    ghost function State(): Fields
      reads this
    {
      Fields(hasApiKey, validationState, linkDomains, textDomains, fileDomains)
    }

    constructor (storage: SecureStorage, prefs: AppPreferences,
                 linkRepository: ShortLinkRepository.ShortLinkRepository,
                 textRepository: TextShareRepository.TextShareRepository,
                 fileRepository: FileRepository.FileRepository)
      ensures State() == Fields(storage.HasApiKey(), Idle, [], [], [])
      ensures this.storage == storage && this.prefs == prefs
      ensures this.linkRepository == linkRepository && this.textRepository == textRepository
      ensures this.fileRepository == fileRepository
    {
      hasApiKey := storage.HasApiKey();
      validationState := Idle;
      linkDomains := [];
      textDomains := [];
      fileDomains := [];
      this.storage := storage;
      this.prefs := prefs;
      this.linkRepository := linkRepository;
      this.textRepository := textRepository;
      this.fileRepository := fileRepository;
    }

    /** `getApiKey`: the stored key, or the empty text when there is none. */
    function GetApiKey(): (r: string)
      reads storage
      ensures storage.apiKey.Some? ==> r == storage.apiKey.value
      ensures storage.apiKey.None? ==> r == ""
    {
      storage.apiKey.GetOr("")
    }

    /** `saveApiKey`: the key is stored and the screen knows a key exists. */
    method SaveApiKey(apiKey: string)
      modifies this, storage
      ensures storage.apiKey == Some(apiKey) && storage.HasApiKey()
      ensures State() == old(State()).(hasApiKey := true)
    {
      storage.SaveApiKey(apiKey);
      hasApiKey := true;
    }

    /**
     * `loadDomains`: each of the three lists is replaced by its fetched
     * list when that request succeeded, and each default is filled from it
     * only when it was unset.
     */
    method LoadDomains(linkCall: AndroidApi.Call<AndroidApi.DomainsResponse>,
                       textCall: AndroidApi.Call<AndroidApi.DomainsResponse>,
                       fileCall: AndroidApi.Call<AndroidApi.DomainsResponse>)
      modifies this, prefs
      ensures var links := ShortLinkRepository.GetDomains(linkCall);
        var texts := TextShareRepository.GetTextDomains(textCall);
        var files := FileRepository.GetFileDomains(fileCall);
        && State() == old(State()).(linkDomains := Refreshed(links, old(linkDomains)),
                                    textDomains := Refreshed(texts, old(textDomains)),
                                    fileDomains := Refreshed(files, old(fileDomains)))
        && prefs.State() == old(prefs.State()).(
             defaultLinkDomain := FilledIfUnset(links, old(prefs.defaultLinkDomain)),
             defaultTextDomain := FilledIfUnset(texts, old(prefs.defaultTextDomain)),
             defaultFileDomain := FilledIfUnset(files, old(prefs.defaultFileDomain)))
    {
      RefreshLinkDomains(linkCall);
      RefreshTextDomains(textCall);
      RefreshFileDomains(fileCall);
    }

    /** The first launch of `loadDomains`: the link list and the default link domain. */
    method RefreshLinkDomains(call: AndroidApi.Call<AndroidApi.DomainsResponse>)
      modifies this, prefs
      ensures var links := ShortLinkRepository.GetDomains(call);
        && State() == old(State()).(linkDomains := Refreshed(links, old(linkDomains)))
        && prefs.State() == old(prefs.State()).(defaultLinkDomain := FilledIfUnset(links, old(prefs.defaultLinkDomain)))
    {
      var links := ShortLinkRepository.GetDomains(call);
      if links.Success? {
        linkDomains := links.data;
        if prefs.defaultLinkDomain.None? && links.data != [] {
          prefs.SetDefaultLinkDomain(links.data[0]);
        }
      }
    }

    /** The second launch of `loadDomains`: the text list and the default text domain. */
    method RefreshTextDomains(call: AndroidApi.Call<AndroidApi.DomainsResponse>)
      modifies this, prefs
      ensures var texts := TextShareRepository.GetTextDomains(call);
        && State() == old(State()).(textDomains := Refreshed(texts, old(textDomains)))
        && prefs.State() == old(prefs.State()).(defaultTextDomain := FilledIfUnset(texts, old(prefs.defaultTextDomain)))
    {
      var texts := TextShareRepository.GetTextDomains(call);
      if texts.Success? {
        textDomains := texts.data;
        if prefs.defaultTextDomain.None? && texts.data != [] {
          prefs.SetDefaultTextDomain(texts.data[0]);
        }
      }
    }

    /** The third launch of `loadDomains`: the file list and the default file domain. */
    method RefreshFileDomains(call: AndroidApi.Call<AndroidApi.DomainsResponse>)
      modifies this, prefs
      ensures var files := FileRepository.GetFileDomains(call);
        && State() == old(State()).(fileDomains := Refreshed(files, old(fileDomains)))
        && prefs.State() == old(prefs.State()).(defaultFileDomain := FilledIfUnset(files, old(prefs.defaultFileDomain)))
    {
      var files := FileRepository.GetFileDomains(call);
      if files.Success? {
        fileDomains := files.data;
        if prefs.defaultFileDomain.None? && files.data != [] {
          prefs.SetDefaultFileDomain(files.data[0]);
        }
      }
    }

    /**
     * `validateApiKey`: `Validating`, with the key saved first; then `Valid`,
     * the link domains of the validating request, a known key and a domain
     * reload when the request succeeds, or `Invalid` with the repository's
     * message when it fails. The key stays stored either way: it was saved
     * just before, so the clean-up guarded by "no key stored" never runs.
     */
    method ValidateApiKey(apiKey: string, call: AndroidApi.Call<AndroidApi.DomainsResponse>,
                          linkCall: AndroidApi.Call<AndroidApi.DomainsResponse>,
                          textCall: AndroidApi.Call<AndroidApi.DomainsResponse>,
                          fileCall: AndroidApi.Call<AndroidApi.DomainsResponse>)
      returns (emitted: seq<ValidationState>)
      modifies this, storage, prefs
      ensures storage.apiKey == Some(apiKey)
      ensures emitted != [] && emitted[0] == Validating && validationState == emitted[|emitted| - 1]
      ensures var result := ShortLinkRepository.GetDomains(call);
        result.Success? ==>
          && emitted == [Validating, Valid]
          && hasApiKey
          && linkDomains == Refreshed(ShortLinkRepository.GetDomains(linkCall), result.data)
          && textDomains == Refreshed(TextShareRepository.GetTextDomains(textCall), old(textDomains))
          && fileDomains == Refreshed(FileRepository.GetFileDomains(fileCall), old(fileDomains))
          && prefs.State() == old(prefs.State()).(
               defaultLinkDomain := FilledIfUnset(ShortLinkRepository.GetDomains(linkCall), old(prefs.defaultLinkDomain)),
               defaultTextDomain := FilledIfUnset(TextShareRepository.GetTextDomains(textCall), old(prefs.defaultTextDomain)),
               defaultFileDomain := FilledIfUnset(FileRepository.GetFileDomains(fileCall), old(prefs.defaultFileDomain)))
      ensures var result := ShortLinkRepository.GetDomains(call);
        result.Error? ==>
          && emitted == [Validating, Invalid(result.message)]
          && State() == old(State()).(validationState := Invalid(result.message))
          && prefs.State() == old(prefs.State())
    {
      validationState := Validating;
      emitted := [Validating];
      storage.SaveApiKey(apiKey);
      var result := ShortLinkRepository.GetDomains(call);
      match result {
        case Success(domains) =>
          validationState := Valid;
          emitted := emitted + [Valid];
          linkDomains := domains;
          hasApiKey := true;
          LoadDomains(linkCall, textCall, fileCall);
        case Error(_, message) =>
          validationState := Invalid(message);
          emitted := emitted + [Invalid(message)];
          if !storage.HasApiKey() {
            // The source calls `clearApiKey` here; the key was saved above,
            // so this clean-up of a missing key is unreachable.
            assert false;
          }
        case Loading =>
          assert false;
      }
    }

    /** `clearHistory`: the link, text and file histories are all emptied. */
    method ClearHistory()
      requires linkRepository.dao.Valid() && textRepository.dao.Valid() && fileRepository.dao.Valid()
      modifies linkRepository.dao, textRepository.dao, fileRepository.dao
      ensures linkRepository.dao.Valid() && linkRepository.dao.rows == []
      ensures textRepository.dao.Valid() && textRepository.dao.rows == []
      ensures fileRepository.dao.Valid() && fileRepository.dao.rows == []
    {
      linkRepository.ClearLocalHistory();
      textRepository.ClearLocalHistory();
      fileRepository.ClearLocalHistory();
    }
  }
}
