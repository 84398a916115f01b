/**
 * The macOS `LinkFormatter`: the same seven markup forms as on Android,
 * each taking the file name and computing its category itself. The HTML
 * forms differ from Android's: the image tag carries a `title`, anchors
 * open in a new tab, and audio and video are never wrapped in an anchor.
 */
module SwiftLinkFormatter {
  import opened Text

  datatype FileCategory = Image | Audio | Video | Other

  // The three array literals that `category(for:)` searches with `contains`.
  const ImageExtensions: set<string> := {"jpg", "jpeg", "png", "gif", "webp", "bmp", "svg", "heic", "avif", "ico", "tiff"}
  const AudioExtensions: set<string> := {"mp3", "wav", "flac", "aac", "ogg", "m4a", "wma"}
  const VideoExtensions: set<string> := {"mp4", "mkv", "avi", "mov", "wmv", "flv", "webm", "m4v"}

  /** `(filename as NSString).pathExtension.lowercased()`. */
  function Extension(filename: string): (r: string)
    ensures '.' !in r
  {
    Lower(PathExtension(filename))
  }

  /** `category(for:)`: the first list that contains the extension. */
  function CategoryOf(filename: string): FileCategory
  {
    CategoryOfExtension(Extension(filename))
  }

  function CategoryOfExtension(ext: string): FileCategory
  {
    if ext in ImageExtensions then Image
    else if ext in AudioExtensions then Audio
    else if ext in VideoExtensions then Video
    else Other
  }

  lemma ExtensionListsDisjoint()
    ensures ImageExtensions !! AudioExtensions
    ensures ImageExtensions !! VideoExtensions
    ensures AudioExtensions !! VideoExtensions
  {
    ImageAudioDisjoint();
    ImageVideoDisjoint();
    AudioVideoDisjoint();
  }

  lemma ImageAudioDisjoint()
    ensures ImageExtensions !! AudioExtensions
  {
  }

  lemma ImageVideoDisjoint()
    ensures ImageExtensions !! VideoExtensions
  {
  }

  lemma AudioVideoDisjoint()
    ensures AudioExtensions !! VideoExtensions
  {
  }

  /** Each category holds for precisely the names whose extension is in its list. */
  lemma CategoryIsMembership(filename: string)
    ensures CategoryOf(filename) == Image <==> Extension(filename) in ImageExtensions
    ensures CategoryOf(filename) == Audio <==> Extension(filename) in AudioExtensions
    ensures CategoryOf(filename) == Video <==> Extension(filename) in VideoExtensions
    ensures CategoryOf(filename) == Other <==>
      Extension(filename) !in ImageExtensions + AudioExtensions + VideoExtensions
  {
    ExtensionListsDisjoint();
  }

  /** A name without any `.` has no extension and is `.other`. */
  lemma NoExtensionIsOther(filename: string)
    requires '.' !in filename
    ensures Extension(filename) == "" && CategoryOf(filename) == Other
  {
  }

  /** The category ignores ASCII case. */
  lemma CategoryIgnoresCase(filename: string)
    ensures CategoryOf(Lower(filename)) == CategoryOf(filename)
  {
    PathExtensionLower(filename);
    LowerIdempotent(PathExtension(filename));
    assert Extension(Lower(filename)) == Extension(filename);
  }

  // ---------------------------------------------------------------- templates

  function BBCode(filename: string, directURL: string): string
  {
    BBCodeFor(CategoryOf(filename), filename, directURL)
  }

  function BBCodeFor(c: FileCategory, filename: string, directURL: string): string
  {
    match c
    case Image => "[img]" + directURL + "[/img]"
    case Audio => "[audio]" + directURL + "[/audio]"
    case Video => "[video]" + directURL + "[/video]"
    case Other => "[url=" + directURL + "]" + filename + "[/url]"
  }

  function BBCodeWithLink(filename: string, pageURL: string, directURL: string): string
  {
    BBCodeWithLinkFor(CategoryOf(filename), filename, pageURL, directURL)
  }

  function BBCodeWithLinkFor(c: FileCategory, filename: string, pageURL: string, directURL: string): string
  {
    match c
    case Image => "[url=" + pageURL + "][img]" + directURL + "[/img][/url]"
    case Audio => "[audio]" + directURL + "[/audio]"
    case Video => "[video]" + directURL + "[/video]"
    case Other => "[url=" + pageURL + "]" + filename + "[/url]"
  }

  function BBCodeDirectLink(filename: string, directURL: string): string
  {
    BBCodeDirectLinkFor(CategoryOf(filename), filename, directURL)
  }

  function BBCodeDirectLinkFor(c: FileCategory, filename: string, directURL: string): string
  {
    match c
    case Image => "[url=" + directURL + "][img]" + directURL + "[/img][/url]"
    case Audio => "[audio]" + directURL + "[/audio]"
    case Video => "[video]" + directURL + "[/video]"
    case Other => "[url=" + directURL + "]" + filename + "[/url]"
  }

  function Html(filename: string, directURL: string): string
  {
    HtmlFor(CategoryOf(filename), filename, directURL)
  }

  function HtmlFor(c: FileCategory, filename: string, directURL: string): string
  {
    match c
    case Image => "<img src=\"" + directURL + "\" alt=\"" + filename + "\" title=\"" + filename + "\">"
    case Audio => "<audio src=\"" + directURL + "\" controls>" + filename + "</audio>"
    case Video => "<video src=\"" + directURL + "\" controls>" + filename + "</video>"
    case Other => "<a href=\"" + directURL + "\">" + filename + "</a>"
  }

  function HtmlWithLink(filename: string, pageURL: string, directURL: string): string
  {
    HtmlWithLinkFor(CategoryOf(filename), filename, pageURL, directURL)
  }

  function HtmlWithLinkFor(c: FileCategory, filename: string, pageURL: string, directURL: string): string
  {
    match c
    case Image =>
      "<a href=\"" + pageURL + "\" target=\"_blank\"><img src=\"" + directURL + "\" alt=\"" + filename
      + "\" title=\"" + filename + "\"></a>"
    case Audio => "<audio src=\"" + directURL + "\" controls>" + filename + "</audio>"
    case Video => "<video src=\"" + directURL + "\" controls>" + filename + "</video>"
    case Other => "<a href=\"" + pageURL + "\" target=\"_blank\">" + filename + "</a>"
  }

  function HtmlDirectLink(filename: string, directURL: string): string
  {
    HtmlDirectLinkFor(CategoryOf(filename), filename, directURL)
  }

  function HtmlDirectLinkFor(c: FileCategory, filename: string, directURL: string): string
  {
    match c
    case Image =>
      "<a href=\"" + directURL + "\" target=\"_blank\"><img src=\"" + directURL + "\" alt=\"" + filename
      + "\" title=\"" + filename + "\"></a>"
    case Audio => "<audio src=\"" + directURL + "\" controls>" + filename + "</audio>"
    case Video => "<video src=\"" + directURL + "\" controls>" + filename + "</video>"
    case Other => "<a href=\"" + directURL + "\" target=\"_blank\">" + filename + "</a>"
  }

  function Markdown(filename: string, directURL: string): string
  {
    MarkdownFor(CategoryOf(filename), filename, directURL)
  }

  function MarkdownFor(c: FileCategory, filename: string, directURL: string): string
  {
    match c
    case Image => "![" + filename + "](" + directURL + ")"
    case Audio | Video | Other => "[" + filename + "](" + directURL + ")"
  }

  /** An anchor that opens `href` in a new tab. */
  function BlankAnchor(href: string, inner: string): string
  {
    "<a href=\"" + href + "\" target=\"_blank\">" + inner + "</a>"
  }

  /** With the page URL equal to the direct URL, each with-link form is its direct-link form. */
  lemma WithLinkOnDirectUrl(filename: string, directURL: string)
    ensures BBCodeWithLink(filename, directURL, directURL) == BBCodeDirectLink(filename, directURL)
    ensures HtmlWithLink(filename, directURL, directURL) == HtmlDirectLink(filename, directURL)
  {
  }

  lemma WrappedImage(filename: string, href: string, directURL: string)
    ensures BBCodeWithLinkFor(Image, filename, href, directURL) == "[url=" + href + "]" + BBCodeFor(Image, filename, directURL) + "[/url]"
  {
    assert "][img]" == "]" + "[img]" && "[/img][/url]" == "[/img]" + "[/url]";
  }

  /**
   * Audio and video are the bare tag in all three BBCode forms; images are
   * wrapped in a `[url=…]` link in the linked forms; other files link the
   * name to the page URL in the with-link form and to the direct URL otherwise.
   */
  lemma BBCodeShapes(filename: string, pageURL: string, directURL: string)
    ensures CategoryOf(filename) == Audio || CategoryOf(filename) == Video ==>
      BBCodeWithLink(filename, pageURL, directURL) == BBCode(filename, directURL)
      && BBCodeDirectLink(filename, directURL) == BBCode(filename, directURL)
    ensures CategoryOf(filename) == Image ==>
      BBCodeWithLink(filename, pageURL, directURL) == "[url=" + pageURL + "]" + BBCode(filename, directURL) + "[/url]"
      && BBCodeDirectLink(filename, directURL) == "[url=" + directURL + "]" + BBCode(filename, directURL) + "[/url]"
    ensures CategoryOf(filename) == Other ==>
      BBCodeWithLink(filename, pageURL, directURL) == "[url=" + pageURL + "]" + filename + "[/url]"
      && BBCodeDirectLink(filename, directURL) == BBCode(filename, directURL)
      == "[url=" + directURL + "]" + filename + "[/url]"
  {
    var c := CategoryOf(filename);
    WrappedImage(filename, pageURL, directURL);
    WrappedImage(filename, directURL, directURL);
    assert BBCode(filename, directURL) == BBCodeFor(c, filename, directURL);
    assert BBCodeWithLink(filename, pageURL, directURL) == BBCodeWithLinkFor(c, filename, pageURL, directURL);
    assert BBCodeDirectLink(filename, directURL) == BBCodeDirectLinkFor(c, filename, directURL);
  }

  /** The linked image form is the plain image tag inside a new-tab anchor to `href`. */
  lemma AnchoredImage(filename: string, href: string, directURL: string)
    ensures HtmlWithLinkFor(Image, filename, href, directURL) == BlankAnchor(href, HtmlFor(Image, filename, directURL))
  {
    assert "\" target=\"_blank\"><img src=\"" == "\" target=\"_blank\">" + "<img src=\"";
    assert "\"></a>" == "\">" + "</a>";
    calc {
      HtmlWithLinkFor(Image, filename, href, directURL);
      "<a href=\"" + href + ("\" target=\"_blank\">" + "<img src=\"") + directURL + "\" alt=\"" + filename
      + "\" title=\"" + filename + ("\">" + "</a>");
      "<a href=\"" + href + "\" target=\"_blank\">"
      + ("<img src=\"" + directURL + "\" alt=\"" + filename + "\" title=\"" + filename + "\">") + "</a>";
    }
  }

  /**
   * The image tag carries `alt` and `title` and no closing slash; the linked
   * forms leave audio and video bare and put images and other files in a
   * new-tab anchor.
   */
  lemma HtmlShapes(filename: string, pageURL: string, directURL: string)
    ensures CategoryOf(filename) == Image ==>
      Html(filename, directURL) == "<img src=\"" + directURL + "\" alt=\"" + filename + "\" title=\"" + filename + "\">"
      && HtmlWithLink(filename, pageURL, directURL) == BlankAnchor(pageURL, Html(filename, directURL))
      && HtmlDirectLink(filename, directURL) == BlankAnchor(directURL, Html(filename, directURL))
    ensures CategoryOf(filename) == Audio || CategoryOf(filename) == Video ==>
      HtmlWithLink(filename, pageURL, directURL) == Html(filename, directURL)
      && HtmlDirectLink(filename, directURL) == Html(filename, directURL)
    ensures CategoryOf(filename) == Other ==>
      HtmlWithLink(filename, pageURL, directURL) == BlankAnchor(pageURL, filename)
      && HtmlDirectLink(filename, directURL) == BlankAnchor(directURL, filename)
  {
    var c := CategoryOf(filename);
    assert Html(filename, directURL) == HtmlFor(c, filename, directURL);
    assert HtmlWithLink(filename, pageURL, directURL) == HtmlWithLinkFor(c, filename, pageURL, directURL);
    assert HtmlDirectLink(filename, directURL) == HtmlDirectLinkFor(c, filename, directURL);
    AnchoredImage(filename, pageURL, directURL);
    AnchoredImage(filename, directURL, directURL);
    assert HtmlWithLinkFor(c, filename, directURL, directURL) == HtmlDirectLinkFor(c, filename, directURL);
  }

  /** Markdown embeds (a leading `!`) exactly the images, and is the plain link otherwise. */
  lemma MarkdownShapes(filename: string, directURL: string)
    ensures Markdown(filename, directURL)[0] == '!' <==> CategoryOf(filename) == Image
    ensures CategoryOf(filename) != Image ==> Markdown(filename, directURL) == "[" + filename + "](" + directURL + ")"
    ensures CategoryOf(filename) == Image ==> Markdown(filename, directURL) == "!" + MarkdownFor(Other, filename, directURL)
  {
    var c := CategoryOf(filename);
    assert Markdown(filename, directURL) == MarkdownFor(c, filename, directURL);
    MarkdownForShapes(c, filename, directURL);
  }

  /** `MarkdownShapes` for a given category. */
  lemma MarkdownForShapes(c: FileCategory, filename: string, directURL: string)
    ensures MarkdownFor(c, filename, directURL)[0] == '!' <==> c == Image
    ensures c != Image ==> MarkdownFor(c, filename, directURL) == MarkdownFor(Other, filename, directURL)
    ensures c == Image ==> MarkdownFor(c, filename, directURL) == "!" + MarkdownFor(Other, filename, directURL)
  {
    var link := MarkdownFor(Other, filename, directURL);
    assert link[0] == '[';
    if c == Image {
      assert link == "[" + filename + "](" + directURL + ")";
      assert MarkdownFor(c, filename, directURL) == "![" + filename + "](" + directURL + ")";
      assert "![" == "!" + "[";
      assert "!" + link == "!" + "[" + filename + "](" + directURL + ")";
    }
  }
}
