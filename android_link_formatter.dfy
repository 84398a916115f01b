/**
 * The Android `LinkFormatter` object: a file name is classified by its
 * extension, and each of the seven markup forms is a fixed template over
 * the direct URL, the share-page URL and the file name.
 */
module AndroidLinkFormatter {
  import opened Text

  datatype FileType = Image | Audio | Video | Other

  const ImageExtensions: set<string> :=
    {"jpg", "jpeg", "png", "gif", "webp", "bmp", "svg", "heic", "avif", "ico", "tiff"}
  const AudioExtensions: set<string> := {"mp3", "wav", "flac", "aac", "ogg", "m4a", "wma"}
  const VideoExtensions: set<string> := {"mp4", "mkv", "avi", "mov", "wmv", "flv", "webm", "m4v", "3gp"}

  /** `substringAfterLast('.', "").lowercase()`. */
  function Extension(filename: string): (r: string)
    ensures '.' !in r
  {
    Lower(AfterLast(filename, '.'))
  }

  /** `fileType`: the first extension set that holds the lower-cased extension. */
  function FileTypeOf(filename: string): FileType
  {
    var ext := Extension(filename);
    if ext in ImageExtensions then Image
    else if ext in AudioExtensions then Audio
    else if ext in VideoExtensions then Video
    else Other
  }

  lemma ExtensionSetsDisjoint()
    ensures ImageExtensions !! AudioExtensions
    ensures ImageExtensions !! VideoExtensions
    ensures AudioExtensions !! VideoExtensions
  {
    ImageAudioDisjoint();
    ImageVideoDisjoint();
    AudioVideoDisjoint();
  }

  lemma ImageAudioDisjoint()
    ensures ImageExtensions !! AudioExtensions
  {
  }

  lemma ImageVideoDisjoint()
    ensures ImageExtensions !! VideoExtensions
  {
  }

  lemma AudioVideoDisjoint()
    ensures AudioExtensions !! VideoExtensions
  {
  }

  /** The classification is exactly membership: each type holds for precisely the names whose extension is in its set. */
  lemma FileTypeIsMembership(filename: string)
    ensures FileTypeOf(filename) == Image <==> Extension(filename) in ImageExtensions
    ensures FileTypeOf(filename) == Audio <==> Extension(filename) in AudioExtensions
    ensures FileTypeOf(filename) == Video <==> Extension(filename) in VideoExtensions
    ensures FileTypeOf(filename) == Other <==>
      Extension(filename) !in ImageExtensions + AudioExtensions + VideoExtensions
  {
    ExtensionSetsDisjoint();
  }

  /** A name without a `.`, or ending in one, has the empty extension and is `Other`. */
  lemma NoExtensionIsOther(filename: string)
    requires '.' !in filename || filename[|filename| - 1] == '.'
    ensures Extension(filename) == ""
    ensures FileTypeOf(filename) == Other
  {
  }

  /** The classification ignores ASCII case: `"PHOTO.JPG"` is an image like `"photo.jpg"`. */
  lemma FileTypeIgnoresCase(filename: string)
    ensures FileTypeOf(Lower(filename)) == FileTypeOf(filename)
  {
    AfterLastLower(filename, '.');
    LowerIdempotent(AfterLast(filename, '.'));
  }

  // ---------------------------------------------------------------- templates

  function BBCode(url: string, filename: string, t: FileType): string
  {
    match t
    case Image => "[img]" + url + "[/img]"
    case Audio => "[audio]" + url + "[/audio]"
    case Video => "[video]" + url + "[/video]"
    case Other => "[url=" + url + "]" + filename + "[/url]"
  }

  function BBCodeWithLink(url: string, pageUrl: string, filename: string, t: FileType): string
  {
    match t
    case Image => "[url=" + pageUrl + "][img]" + url + "[/img][/url]"
    case Audio => "[audio]" + url + "[/audio]"
    case Video => "[video]" + url + "[/video]"
    case Other => "[url=" + pageUrl + "]" + filename + "[/url]"
  }

  function BBCodeDirectLink(url: string, filename: string, t: FileType): string
  {
    match t
    case Image => "[url=" + url + "][img]" + url + "[/img][/url]"
    case Audio => "[audio]" + url + "[/audio]"
    case Video => "[video]" + url + "[/video]"
    case Other => "[url=" + url + "]" + filename + "[/url]"
  }

  function Html(url: string, filename: string, t: FileType): string
  {
    match t
    case Image => "<img src=\"" + url + "\" alt=\"" + filename + "\" />"
    case Audio => "<audio src=\"" + url + "\" controls>" + filename + "</audio>"
    case Video => "<video src=\"" + url + "\" controls>" + filename + "</video>"
    case Other => "<a href=\"" + url + "\">" + filename + "</a>"
  }

  function HtmlWithLink(url: string, pageUrl: string, filename: string, t: FileType): string
  {
    match t
    case Image => "<a href=\"" + pageUrl + "\"><img src=\"" + url + "\" alt=\"" + filename + "\" /></a>"
    case Audio => "<a href=\"" + pageUrl + "\"><audio src=\"" + url + "\" controls>" + filename + "</audio></a>"
    case Video => "<a href=\"" + pageUrl + "\"><video src=\"" + url + "\" controls>" + filename + "</video></a>"
    case Other => "<a href=\"" + pageUrl + "\">" + filename + "</a>"
  }

  function HtmlDirectLink(url: string, filename: string, t: FileType): string
  {
    match t
    case Image => "<a href=\"" + url + "\"><img src=\"" + url + "\" alt=\"" + filename + "\" /></a>"
    case Audio => "<a href=\"" + url + "\"><audio src=\"" + url + "\" controls>" + filename + "</audio></a>"
    case Video => "<a href=\"" + url + "\"><video src=\"" + url + "\" controls>" + filename + "</video></a>"
    case Other => "<a href=\"" + url + "\">" + filename + "</a>"
  }

  function Markdown(url: string, filename: string, t: FileType): string
  {
    match t
    case Image => "![" + filename + "](" + url + ")"
    case _ => "[" + filename + "](" + url + ")"
  }

  /** An HTML anchor around some markup. */
  function Anchor(href: string, inner: string): string
  {
    "<a href=\"" + href + "\">" + inner + "</a>"
  }

  /** With the share page equal to the direct URL, each with-link form is its direct-link form. */
  lemma WithLinkOnDirectUrl(url: string, filename: string, t: FileType)
    ensures BBCodeWithLink(url, url, filename, t) == BBCodeDirectLink(url, filename, t)
    ensures HtmlWithLink(url, url, filename, t) == HtmlDirectLink(url, filename, t)
  {
  }

  /**
   * In all three BBCode forms audio and video are the bare tag around the
   * direct URL; images are wrapped in a `[url=…]` link in the two linked
   * forms, and other files are a `[url=…]` link around the file name.
   */
  lemma BBCodeShapes(url: string, pageUrl: string, filename: string, t: FileType)
    ensures t == Audio ==> BBCode(url, filename, t) == "[audio]" + url + "[/audio]"
    ensures t == Video ==> BBCode(url, filename, t) == "[video]" + url + "[/video]"
    ensures t == Audio || t == Video ==>
      BBCodeWithLink(url, pageUrl, filename, t) == BBCode(url, filename, t)
      && BBCodeDirectLink(url, filename, t) == BBCode(url, filename, t)
    ensures t == Image ==>
      BBCodeWithLink(url, pageUrl, filename, t) == "[url=" + pageUrl + "]" + BBCode(url, filename, t) + "[/url]"
      && BBCodeDirectLink(url, filename, t) == "[url=" + url + "]" + BBCode(url, filename, t) + "[/url]"
    ensures t == Other ==>
      BBCodeWithLink(url, pageUrl, filename, t) == BBCode(pageUrl, filename, t)
      && BBCodeDirectLink(url, filename, t) == BBCode(url, filename, t)
  {
  }

  /** The linked HTML forms of a media file are the plain tag inside an anchor to `href`. */
  lemma AnchoredMedia(href: string, url: string, filename: string, t: FileType)
    requires t != Other
    ensures HtmlWithLink(url, href, filename, t) == Anchor(href, Html(url, filename, t))
  {
    match t
    case Image =>
      assert "\"><img src=\"" == "\">" + "<img src=\"";
      assert "\" /></a>" == "\" />" + "</a>";
      Regroup("<a href=\"", href, "\">", "<img src=\"", url, "\" alt=\"", filename, "\" />", "</a>");
    case Audio =>
      assert "\"><audio src=\"" == "\">" + "<audio src=\"";
      assert "</audio></a>" == "</audio>" + "</a>";
      Regroup("<a href=\"", href, "\">", "<audio src=\"", url, "\" controls>", filename, "</audio>", "</a>");
    case Video =>
      assert "\"><video src=\"" == "\">" + "<video src=\"";
      assert "</video></a>" == "</video>" + "</a>";
      Regroup("<a href=\"", href, "\">", "<video src=\"", url, "\" controls>", filename, "</video>", "</a>");
  }

  /** Moving the parentheses of a seven-piece template with two split literals. */
  lemma Regroup(p: string, h: string, a: string, b: string, u: string, c: string, f: string, d: string, e: string)
    ensures p + h + (a + b) + u + c + f + (d + e) == p + h + a + (b + u + c + f + d) + e
  {
  }

  /**
   * The image tag self-closes with ` />`; both linked HTML forms wrap the
   * plain tag of every media type, audio and video included, in an anchor,
   * and for other files replace the anchor's target.
   */
  lemma HtmlShapes(url: string, pageUrl: string, filename: string, t: FileType)
    ensures Html(url, filename, Image) == "<img src=\"" + url + "\" alt=\"" + filename + "\" />"
    ensures t != Other ==>
      HtmlWithLink(url, pageUrl, filename, t) == Anchor(pageUrl, Html(url, filename, t))
      && HtmlDirectLink(url, filename, t) == Anchor(url, Html(url, filename, t))
    ensures t == Other ==>
      HtmlWithLink(url, pageUrl, filename, t) == Html(pageUrl, filename, t) == Anchor(pageUrl, filename)
      && HtmlDirectLink(url, filename, t) == Html(url, filename, t)
  {
    if t != Other {
      AnchoredMedia(pageUrl, url, filename, t);
      AnchoredMedia(url, url, filename, t);
      WithLinkOnDirectUrl(url, filename, t);
    }
  }

  /** Markdown is an image embed (a leading `!`) exactly for images, and otherwise the plain link. */
  lemma MarkdownShapes(url: string, filename: string, t: FileType)
    ensures Markdown(url, filename, t)[0] == '!' <==> t == Image
    ensures t != Image ==> Markdown(url, filename, t) == "[" + filename + "](" + url + ")"
    ensures t == Image ==> Markdown(url, filename, t) == "!" + Markdown(url, filename, Other)
  {
  }
}

/** The Android `LinkDisplayType` enum: labels, `formatted` and `fromString`. */
module AndroidLinkDisplayType {
  import opened Wrappers
  import opened Text
  import opened UploadedFileDao
  import F = AndroidLinkFormatter

  datatype LinkDisplayType =
    | DirectLink | SharePage | BBCode | BBCodeWithLink | BBCodeDirectLink
    | Html | HtmlWithLink | HtmlDirectLink | Markdown
  {
    /** The constant's name, which is what the preference store holds. */
    function Name(): string
    {
      match this
      case DirectLink => "DIRECT_LINK"
      case SharePage => "SHARE_PAGE"
      case BBCode => "BBCODE"
      case BBCodeWithLink => "BBCODE_WITH_LINK"
      case BBCodeDirectLink => "BBCODE_DIRECT_LINK"
      case Html => "HTML"
      case HtmlWithLink => "HTML_WITH_LINK"
      case HtmlDirectLink => "HTML_DIRECT_LINK"
      case Markdown => "MARKDOWN"
    }

    /** The label shown to the user. */
    function Label(): string
    {
      match this
      case DirectLink => "Direct Link"
      case SharePage => "Share Page"
      case BBCode => "BBCode"
      case BBCodeWithLink => "BBCode w/ Link"
      case BBCodeDirectLink => "BBCode w/ Direct Link"
      case Html => "HTML"
      case HtmlWithLink => "HTML w/ Link"
      case HtmlDirectLink => "HTML w/ Direct Link"
      case Markdown => "Markdown"
    }
  }

  /** `entries`, in declaration order. */
  const Entries: seq<LinkDisplayType> :=
    [DirectLink, SharePage, BBCode, BBCodeWithLink, BBCodeDirectLink, Html, HtmlWithLink, HtmlDirectLink, Markdown]

  /** The position of a display type among the entries. */
  function Ordinal(t: LinkDisplayType): (i: nat)
    ensures i < |Entries| && Entries[i] == t
  {
    match t
    case DirectLink => 0
    case SharePage => 1
    case BBCode => 2
    case BBCodeWithLink => 3
    case BBCodeDirectLink => 4
    case Html => 5
    case HtmlWithLink => 6
    case HtmlDirectLink => 7
    case Markdown => 8
  }

  lemma EntriesAreEveryCaseOnce()
    ensures |Entries| == 9
    ensures forall t: LinkDisplayType :: t in Entries
    ensures forall i, j :: 0 <= i < j < |Entries| ==> Entries[i] != Entries[j]
  {
    forall t: LinkDisplayType ensures t in Entries {
      assert Entries[Ordinal(t)] == t;
    }
  }

  /** `entries.find { it.name == value }`: the first entry with that name. */
  function FindByName(entries: seq<LinkDisplayType>, value: string): (r: Option<LinkDisplayType>)
    ensures r.Some? ==> r.value in entries && r.value.Name() == value
    ensures r.None? <==> forall i :: 0 <= i < |entries| ==> entries[i].Name() != value
  {
    if entries == [] then None
    else if entries[0].Name() == value then Some(entries[0])
    else FindByName(entries[1..], value)
  }

  /** `fromString`: the entry whose name is `value`, or `DIRECT_LINK`. */
  function FromString(value: string): LinkDisplayType
  {
    FindByName(Entries, value).GetOr(DirectLink)
  }

  /** Every display type is read back from its stored name. */
  lemma FromStringName(t: LinkDisplayType)
    ensures FromString(t.Name()) == t
  {
    var r := FindByName(Entries, t.Name());
    assert Entries[Ordinal(t)].Name() == t.Name();
  }

  /** A string that is no constant's name falls back to `DIRECT_LINK`. */
  lemma FromStringOther(value: string)
    requires forall t: LinkDisplayType :: t.Name() != value
    ensures FromString(value) == DirectLink
  {
    EntriesAreEveryCaseOnce();
  }

  /** No label other than `"HTML"` is spelled like a constant's name. */
  lemma LabelIsNoName(t: LinkDisplayType, u: LinkDisplayType)
    requires t != Html
    ensures u.Name() != t.Label()
  {
  }

  /** Labels are not names: only `"HTML"`, whose label and name coincide, is read back as itself. */
  lemma FromStringLabel(t: LinkDisplayType)
    ensures FromString(t.Label()) == (if t == Html then Html else DirectLink)
  {
    if t == Html {
      FromStringName(Html);
    } else {
      forall u: LinkDisplayType ensures u.Name() != t.Label() {
        LabelIsNoName(t, u);
      }
      FromStringOther(t.Label());
    }
  }

  /** `formatted(file)`: the file's link in this form, with the share page falling back to the direct URL. */
  function Formatted(t: LinkDisplayType, file: UploadedFileEntity): string
  {
    Rendered(t, file.url, file.page.GetOr(file.url), file.filename)
  }

  /** The body of `formatted(file)` over the direct URL, the share page (after its fallback) and the name. */
  function Rendered(t: LinkDisplayType, url: string, pageUrl: string, filename: string): string
  {
    var fileType := F.FileTypeOf(filename);
    match t
    case DirectLink => url
    case SharePage => pageUrl
    case BBCode => F.BBCode(url, filename, fileType)
    case BBCodeWithLink => F.BBCodeWithLink(url, pageUrl, filename, fileType)
    case BBCodeDirectLink => F.BBCodeDirectLink(url, filename, fileType)
    case Html => F.Html(url, filename, fileType)
    case HtmlWithLink => F.HtmlWithLink(url, pageUrl, filename, fileType)
    case HtmlDirectLink => F.HtmlDirectLink(url, filename, fileType)
    case Markdown => F.Markdown(url, filename, fileType)
  }

  /** The two bare forms: the direct URL, and the share page or else the direct URL, whatever the file type. */
  lemma FormattedBareLinks(file: UploadedFileEntity)
    ensures Formatted(DirectLink, file) == file.url
    ensures file.page.Some? ==> Formatted(SharePage, file) == file.page.value
    ensures file.page.None? ==> Formatted(SharePage, file) == file.url
  {
  }

  /** Without a share page every linked form is its direct-link form. */
  lemma NoPageLinksDirect(file: UploadedFileEntity)
    requires file.page.None?
    ensures Formatted(SharePage, file) == Formatted(DirectLink, file)
    ensures Formatted(BBCodeWithLink, file) == Formatted(BBCodeDirectLink, file)
    ensures Formatted(HtmlWithLink, file) == Formatted(HtmlDirectLink, file)
  {
    var url, name := file.url, file.filename;
    assert file.page.GetOr(url) == url;
    F.WithLinkOnDirectUrl(url, name, F.FileTypeOf(name));
    assert Rendered(BBCodeWithLink, url, url, name) == Rendered(BBCodeDirectLink, url, url, name);
    assert Rendered(HtmlWithLink, url, url, name) == Rendered(HtmlDirectLink, url, url, name);
  }

  /**
   * The direct URL is part of every form except the share page and the
   * page-linked forms of files that are not media, which show only the page.
   */
  lemma FormattedShowsUrl(t: LinkDisplayType, file: UploadedFileEntity)
    requires t != SharePage
    requires t == BBCodeWithLink || t == HtmlWithLink ==> F.FileTypeOf(file.filename) != F.Other
    ensures Contains(Formatted(t, file), file.url)
  {
    RenderedShowsUrl(t, file.url, file.page.GetOr(file.url), file.filename);
  }

  /** `FormattedShowsUrl` over the direct URL, share page and name. */
  lemma RenderedShowsUrl(t: LinkDisplayType, url: string, page: string, name: string)
    requires t != SharePage
    requires t == BBCodeWithLink || t == HtmlWithLink ==> F.FileTypeOf(name) != F.Other
    ensures Contains(Rendered(t, url, page, name), url)
  {
    var ft := F.FileTypeOf(name);
    match t
    case DirectLink => assert url <= url[0..];
    case BBCode => BBCodeShowsUrl(url, name, ft);
    case BBCodeWithLink => BBCodeWithLinkShowsUrl(url, page, name, ft);
    case BBCodeDirectLink => BBCodeWithLinkShowsUrl(url, url, name, ft);
    case Html => HtmlShowsUrl(url, name, ft);
    case HtmlWithLink => HtmlWithLinkShowsUrl(url, page, name, ft);
    case HtmlDirectLink => HtmlWithLinkShowsUrl(url, url, name, ft);
    case Markdown =>
      if ft == F.Image {
        ContainsFourthOfFive("![", name, "](", url, ")");
      } else {
        ContainsFourthOfFive("[", name, "](", url, ")");
      }
  }

  lemma BBCodeShowsUrl(url: string, name: string, ft: F.FileType)
    ensures Contains(F.BBCode(url, name, ft), url)
  {
    match ft
    case Image => ContainsInfix("[img]", url, "[/img]");
    case Audio => ContainsInfix("[audio]", url, "[/audio]");
    case Video => ContainsInfix("[video]", url, "[/video]");
    case Other => ContainsSecondOfFive("[url=", url, "]", name, "[/url]");
  }

  /** The page-linked BBCode shows the direct URL for media; with the page set to the URL it is the direct-link form. */
  lemma BBCodeWithLinkShowsUrl(url: string, page: string, name: string, ft: F.FileType)
    requires page == url || ft != F.Other
    ensures Contains(F.BBCodeWithLink(url, page, name, ft), url)
    ensures page == url ==> Contains(F.BBCodeDirectLink(url, name, ft), url)
  {
    match ft
    case Image =>
      ContainsFourthOfFive("[url=", page, "][img]", url, "[/img][/url]");
      ContainsFourthOfFive("[url=", url, "][img]", url, "[/img][/url]");
    case Audio => ContainsInfix("[audio]", url, "[/audio]");
    case Video => ContainsInfix("[video]", url, "[/video]");
    case Other =>
      ContainsSecondOfFive("[url=", url, "]", name, "[/url]");
  }

  lemma HtmlShowsUrl(url: string, name: string, ft: F.FileType)
    ensures Contains(F.Html(url, name, ft), url)
  {
    match ft
    case Image => ContainsSecondOfFive("<img src=\"", url, "\" alt=\"", name, "\" />");
    case Audio => ContainsSecondOfFive("<audio src=\"", url, "\" controls>", name, "</audio>");
    case Video => ContainsSecondOfFive("<video src=\"", url, "\" controls>", name, "</video>");
    case Other => ContainsSecondOfFive("<a href=\"", url, "\">", name, "</a>");
  }

  /** The page-linked HTML shows the direct URL for media; with the page set to the URL it is the direct-link form. */
  lemma HtmlWithLinkShowsUrl(url: string, page: string, name: string, ft: F.FileType)
    requires page == url || ft != F.Other
    ensures Contains(F.HtmlWithLink(url, page, name, ft), url)
    ensures page == url ==> Contains(F.HtmlDirectLink(url, name, ft), url)
  {
    match ft
    case Image =>
      ContainsFourthOfSeven("<a href=\"", page, "\"><img src=\"", url, "\" alt=\"", name, "\" /></a>");
      ContainsFourthOfSeven("<a href=\"", url, "\"><img src=\"", url, "\" alt=\"", name, "\" /></a>");
    case Audio =>
      ContainsFourthOfSeven("<a href=\"", page, "\"><audio src=\"", url, "\" controls>", name, "</audio></a>");
      ContainsFourthOfSeven("<a href=\"", url, "\"><audio src=\"", url, "\" controls>", name, "</audio></a>");
    case Video =>
      ContainsFourthOfSeven("<a href=\"", page, "\"><video src=\"", url, "\" controls>", name, "</video></a>");
      ContainsFourthOfSeven("<a href=\"", url, "\"><video src=\"", url, "\" controls>", name, "</video></a>");
    case Other =>
      ContainsSecondOfFive("<a href=\"", url, "\">", name, "</a>");
  }
}
