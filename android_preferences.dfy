/**
 * The Android client's two stores: the preferences (base URL, default
 * domains, theme, dynamic colour, file-link display type), each read with
 * its default when the key is absent, and the secure storage holding the
 * API key. Persistence and encryption are not modelled; each store is an
 * object whose stored keys the ViewModels change.
 */
module AndroidPreferences {
  import opened Wrappers

  const DefaultBaseUrl := "https://s.ee/api/v1/"
  const DefaultThemeMode := "system"
  const DefaultDynamicColor := true
  const DefaultFileLinkDisplayType := "DIRECT_LINK"

  /** The stored keys; `None` is a key that was never written. */
  datatype StoredPrefs = StoredPrefs(
    baseUrl: Option<string>,
    defaultLinkDomain: Option<string>,
    defaultTextDomain: Option<string>,
    defaultFileDomain: Option<string>,
    themeMode: Option<string>,
    dynamicColor: Option<bool>,
    fileLinkDisplayType: Option<string>)
  {
    /** `baseUrl`: the stored URL, else the default. */
    function BaseUrl(): (r: string)
      ensures baseUrl.Some? ==> r == baseUrl.value
      ensures baseUrl.None? ==> r == DefaultBaseUrl
    {
      baseUrl.GetOr(DefaultBaseUrl)
    }

    function ThemeMode(): (r: string)
      ensures themeMode.Some? ==> r == themeMode.value
      ensures themeMode.None? ==> r == DefaultThemeMode
    {
      themeMode.GetOr(DefaultThemeMode)
    }

    function DynamicColor(): (r: bool)
      ensures dynamicColor.Some? ==> r == dynamicColor.value
      ensures dynamicColor.None? ==> r == DefaultDynamicColor
    {
      dynamicColor.GetOr(DefaultDynamicColor)
    }

    function FileLinkDisplayType(): (r: string)
      ensures fileLinkDisplayType.Some? ==> r == fileLinkDisplayType.value
      ensures fileLinkDisplayType.None? ==> r == DefaultFileLinkDisplayType
    {
      fileLinkDisplayType.GetOr(DefaultFileLinkDisplayType)
    }
  }

  const EmptyStore := StoredPrefs(None, None, None, None, None, None, None)

  /** A store nothing was written to reads as the defaults, with no default domain. */
  lemma EmptyStoreReadsDefaults()
    ensures EmptyStore.BaseUrl() == "https://s.ee/api/v1/"
    ensures EmptyStore.ThemeMode() == "system" && EmptyStore.DynamicColor()
    ensures EmptyStore.FileLinkDisplayType() == "DIRECT_LINK"
    ensures EmptyStore.defaultLinkDomain.None? && EmptyStore.defaultTextDomain.None?
    ensures EmptyStore.defaultFileDomain.None?
  {
  }

  /** Writing a key makes it read back as written, whatever was stored before. */
  lemma WrittenKeysReadBack(p: StoredPrefs, url: string, mode: string, enabled: bool, displayType: string)
    ensures p.(baseUrl := Some(url)).BaseUrl() == url
    ensures p.(themeMode := Some(mode)).ThemeMode() == mode
    ensures p.(dynamicColor := Some(enabled)).DynamicColor() == enabled
    ensures p.(fileLinkDisplayType := Some(displayType)).FileLinkDisplayType() == displayType
  {
  }

  class AppPreferences {
    var baseUrl: Option<string>
    var defaultLinkDomain: Option<string>
    var defaultTextDomain: Option<string>
    var defaultFileDomain: Option<string>
    var themeMode: Option<string>
    var dynamicColor: Option<bool>
    var fileLinkDisplayType: Option<string>

    function State(): StoredPrefs
      reads this
    {
      StoredPrefs(baseUrl, defaultLinkDomain, defaultTextDomain, defaultFileDomain, themeMode, dynamicColor,
                  fileLinkDisplayType)
    }

    constructor ()
      ensures State() == EmptyStore
    {
      baseUrl := None;
      defaultLinkDomain := None;
      defaultTextDomain := None;
      defaultFileDomain := None;
      themeMode := None;
      dynamicColor := None;
      fileLinkDisplayType := None;
    }

    method SetBaseUrl(url: string)
      modifies this
      ensures State() == old(State()).(baseUrl := Some(url))
    {
      baseUrl := Some(url);
    }

    method SetDefaultLinkDomain(domain: string)
      modifies this
      ensures State() == old(State()).(defaultLinkDomain := Some(domain))
    {
      defaultLinkDomain := Some(domain);
    }

    method SetDefaultTextDomain(domain: string)
      modifies this
      ensures State() == old(State()).(defaultTextDomain := Some(domain))
    {
      defaultTextDomain := Some(domain);
    }

    method SetDefaultFileDomain(domain: string)
      modifies this
      ensures State() == old(State()).(defaultFileDomain := Some(domain))
    {
      defaultFileDomain := Some(domain);
    }

    method SetThemeMode(mode: string)
      modifies this
      ensures State() == old(State()).(themeMode := Some(mode))
    {
      themeMode := Some(mode);
    }

    method SetDynamicColor(enabled: bool)
      modifies this
      ensures State() == old(State()).(dynamicColor := Some(enabled))
    {
      dynamicColor := Some(enabled);
    }

    method SetFileLinkDisplayType(displayType: string)
      modifies this
      ensures State() == old(State()).(fileLinkDisplayType := Some(displayType))
    {
      fileLinkDisplayType := Some(displayType);
    }
  }

  /** The encrypted key store; only the API key entry is modelled. */
  class SecureStorage {
    var apiKey: Option<string>

    constructor ()
      ensures apiKey.None?
    {
      apiKey := None;
    }

    /** `hasApiKey`: a key is stored, whatever its text (an empty key counts). */
    predicate HasApiKey()
      reads this
    {
      apiKey != None
    }

    method SaveApiKey(key: string)
      modifies this
      ensures apiKey == Some(key) && HasApiKey()
    {
      apiKey := Some(key);
    }

    method ClearApiKey()
      modifies this
      ensures apiKey.None? && !HasApiKey()
    {
      apiKey := None;
    }
  }
}
