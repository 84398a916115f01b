/**
 * How the Android and macOS link formatters relate: where their file
 * classification and their templates agree, and where they differ.
 */
module LinkPlatforms {
  import opened Wrappers
  import opened Text
  import A = AndroidLinkFormatter
  import S = SwiftLinkFormatter
  import AD = AndroidLinkDisplayType
  import FU = FileUploadView

  /** The macOS category that corresponds to an Android file type. */
  function CategoryFor(t: A.FileType): (c: S.FileCategory)
  {
    match t
    case Image => S.Image
    case Audio => S.Audio
    case Video => S.Video
    case Other => S.Other
  }

  /** The macOS display type that corresponds to an Android one. */
  function DisplayTypeFor(t: AD.LinkDisplayType): FU.LinkDisplayType
  {
    match t
    case DirectLink => FU.DirectLink
    case SharePage => FU.SharePage
    case BBCode => FU.BBCode
    case BBCodeWithLink => FU.BBCodeWithLink
    case BBCodeDirectLink => FU.BBCodeDirectLink
    case Html => FU.Html
    case HtmlWithLink => FU.HtmlWithLink
    case HtmlDirectLink => FU.HtmlDirectLink
    case Markdown => FU.Markdown
  }

  /** Both platforms read the same extension from a plain `stem.ext` name. */
  lemma SameExtension(stem: string, ext: string)
    requires |stem| >= 1
    requires '.' !in stem && '/' !in stem && '.' !in ext && '/' !in ext
    ensures A.Extension(stem + "." + ext) == S.Extension(stem + "." + ext) == Lower(ext)
  {
    PathExtensionOfName(stem, ext);
  }

  /** The extension lists agree except that only Android lists `3gp`, as a video. */
  lemma ExtensionListsAgree(e: string)
    ensures e in A.ImageExtensions <==> e in S.ImageExtensions
    ensures e in A.AudioExtensions <==> e in S.AudioExtensions
    ensures e in A.VideoExtensions <==> e in S.VideoExtensions || e == "3gp"
    ensures "3gp" !in S.ImageExtensions + S.AudioExtensions + S.VideoExtensions
  {
  }

  /** `3gp` is in Android's video list only, and in no macOS list. */
  lemma ThreeGpListed()
    ensures Lower("3gp") == "3gp"
    ensures "3gp" in A.VideoExtensions
    ensures "3gp" !in S.ImageExtensions + S.AudioExtensions + S.VideoExtensions
  {
    LowerOfLowerCase("3gp");
  }

  /** A `.3gp` file is a video on Android and an "other" file on macOS. */
  lemma ThreeGpDiffers(stem: string)
    requires |stem| >= 1 && '.' !in stem && '/' !in stem
    ensures A.FileTypeOf(stem + ".3gp") == A.Video
    ensures S.CategoryOf(stem + ".3gp") == S.Other
  {
    var name := stem + ".3gp";
    assert name == stem + "." + "3gp";
    SameExtension(stem, "3gp");
    ThreeGpListed();
    assert A.Extension(name) == "3gp" && S.Extension(name) == "3gp";
    A.FileTypeIsMembership(name);
    S.CategoryIsMembership(name);
  }

  /** Apart from `3gp`, the two classifiers agree on every plain `stem.ext` name. */
  lemma ClassifiersAgree(stem: string, ext: string)
    requires |stem| >= 1
    requires '.' !in stem && '/' !in stem && '.' !in ext && '/' !in ext
    requires Lower(ext) != "3gp"
    ensures CategoryFor(A.FileTypeOf(stem + "." + ext)) == S.CategoryOf(stem + "." + ext)
  {
    var name := stem + "." + ext;
    SameExtension(stem, ext);
    ExtensionListsAgree(Lower(ext));
    A.FileTypeIsMembership(name);
    S.CategoryIsMembership(name);
  }

  /** For the same category the BBCode and Markdown templates of the two platforms are identical. */
  lemma SameBBCodeAndMarkdown(url: string, pageUrl: string, filename: string, t: A.FileType)
    ensures A.BBCode(url, filename, t) == S.BBCodeFor(CategoryFor(t), filename, url)
    ensures A.BBCodeWithLink(url, pageUrl, filename, t) == S.BBCodeWithLinkFor(CategoryFor(t), filename, pageUrl, url)
    ensures A.BBCodeDirectLink(url, filename, t) == S.BBCodeDirectLinkFor(CategoryFor(t), filename, url)
    ensures A.Markdown(url, filename, t) == S.MarkdownFor(CategoryFor(t), filename, url)
  {
  }

  /**
   * The image tag differs: macOS adds a `title` and drops the closing slash,
   * which makes its tag longer by seven characters plus the file name.
   */
  lemma ImageTagDiffers(url: string, filename: string)
    ensures |S.HtmlFor(S.Image, filename, url)| == |A.Html(url, filename, A.Image)| + 7 + |filename|
    ensures S.HtmlFor(S.Image, filename, url) != A.Html(url, filename, A.Image)
  {
  }

  /**
   * In the linked HTML forms Android wraps audio and video in an anchor
   * while macOS leaves the same tag bare.
   */
  lemma LinkedMediaDiffers(url: string, pageUrl: string, filename: string, t: A.FileType)
    requires t == A.Audio || t == A.Video
    ensures S.HtmlWithLinkFor(CategoryFor(t), filename, pageUrl, url) == A.Html(url, filename, t)
    ensures S.HtmlDirectLinkFor(CategoryFor(t), filename, url) == A.Html(url, filename, t)
    ensures A.HtmlWithLink(url, pageUrl, filename, t) == A.Anchor(pageUrl, S.HtmlWithLinkFor(CategoryFor(t), filename, pageUrl, url))
    ensures A.HtmlDirectLink(url, filename, t) == A.Anchor(url, S.HtmlDirectLinkFor(CategoryFor(t), filename, url))
  {
    A.HtmlShapes(url, pageUrl, filename, t);
  }

  /** Android's labels are the macOS raw values. */
  lemma LabelsAreRawValues(t: AD.LinkDisplayType)
    ensures t.Label() == DisplayTypeFor(t).RawValue()
  {
  }

  /**
   * The fallbacks differ: with nothing usable stored, Android shows the
   * direct link and macOS the share page. A stored Android name is never a
   * macOS raw value except `"HTML"`, so moving a preference between the two
   * stores falls back in all other cases.
   */
  lemma FallbacksDiffer(t: AD.LinkDisplayType)
    ensures AD.FromString("") == AD.DirectLink
    ensures FU.InitialLinkDisplayType(None) == FU.SharePage
    ensures t != AD.Html ==> FU.InitialLinkDisplayType(Some(t.Name())) == FU.SharePage
    ensures FU.InitialLinkDisplayType(Some(AD.LinkDisplayType.Html.Name())) == FU.Html
  {
    forall u: AD.LinkDisplayType
      ensures u.Name() != ""
    {
    }
    AD.FromStringOther("");
    if t != AD.Html {
      NameIsNoRawValue(t);
    }
    assert AD.LinkDisplayType.Html.Name() == FU.LinkDisplayType.Html.RawValue();
    FU.InitialLinkDisplayTypeRestores(FU.LinkDisplayType.Html);
  }

  /** Only `"HTML"` is both an Android name and a macOS raw value. */
  lemma NameIsNoRawValue(t: AD.LinkDisplayType)
    requires t != AD.Html
    ensures FU.FromRawValue(t.Name()).None?
  {
    match t
    case DirectLink =>
    case SharePage =>
    case BBCode =>
    case BBCodeWithLink =>
    case BBCodeDirectLink =>
    case HtmlWithLink =>
    case HtmlDirectLink =>
    case Markdown =>
  }
}
