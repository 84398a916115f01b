/**
 * The computed parts of the macOS file-upload screen: the link display
 * types and what each renders for a file, the batch-copy text, a row's
 * size caption, and the screen's selection and page state.
 */
module FileUploadView {
  import opened Wrappers
  import opened Text
  import opened Seqs
  import L = SwiftLinkFormatter
  import opened UploadedFileModel
  import Pagination
  import ListState

  /** The nine display forms, in their declared order; the raw value is the label shown. */
  datatype LinkDisplayType =
    | DirectLink | SharePage | BBCode | BBCodeWithLink | BBCodeDirectLink
    | Html | HtmlWithLink | HtmlDirectLink | Markdown
  {
    function RawValue(): string
    {
      match this
      case DirectLink => "Direct Link"
      case SharePage => "Share Page"
      case BBCode => "BBCode"
      case BBCodeWithLink => "BBCode w/ Link"
      case BBCodeDirectLink => "BBCode w/ Direct Link"
      case Html => "HTML"
      case HtmlWithLink => "HTML w/ Link"
      case HtmlDirectLink => "HTML w/ Direct Link"
      case Markdown => "Markdown"
    }

    /** `isClickableURL`: only the two bare-link forms are shown as links. */
    predicate IsClickableURL()
    {
      this == DirectLink || this == SharePage
    }

    /** `formatted(file:)`: the bare URL or page, or the formatter's form of the same name. */
    function Formatted(file: UploadedFile): string
    {
      Render(file.filename, file.page, file.url)
    }

    /** The body of `formatted(file:)` over the file's name, share page and direct URL. */
    function Render(filename: string, page: string, url: string): string
    {
      match this
      case DirectLink => url
      case SharePage => page
      case BBCode => L.BBCode(filename, url)
      case BBCodeWithLink => L.BBCodeWithLink(filename, page, url)
      case BBCodeDirectLink => L.BBCodeDirectLink(filename, url)
      case Html => L.Html(filename, url)
      case HtmlWithLink => L.HtmlWithLink(filename, page, url)
      case HtmlDirectLink => L.HtmlDirectLink(filename, url)
      case Markdown => L.Markdown(filename, url)
    }
  }

  /** `allCases`, in declaration order. */
  const AllCases: seq<LinkDisplayType> :=
    [DirectLink, SharePage, BBCode, BBCodeWithLink, BBCodeDirectLink, Html, HtmlWithLink, HtmlDirectLink, Markdown]

  /** `init(rawValue:)`: the case whose raw value is exactly `raw`, if any. */
  function FromRawValue(raw: string): (r: Option<LinkDisplayType>)
    ensures r.Some? ==> r.value.RawValue() == raw
  {
    if raw == "Direct Link" then Some(DirectLink)
    else if raw == "Share Page" then Some(SharePage)
    else if raw == "BBCode" then Some(BBCode)
    else if raw == "BBCode w/ Link" then Some(BBCodeWithLink)
    else if raw == "BBCode w/ Direct Link" then Some(BBCodeDirectLink)
    else if raw == "HTML" then Some(Html)
    else if raw == "HTML w/ Link" then Some(HtmlWithLink)
    else if raw == "HTML w/ Direct Link" then Some(HtmlDirectLink)
    else if raw == "Markdown" then Some(Markdown)
    else None
  }

  /** Every case is listed once, and its raw value parses back to it. */
  lemma AllCasesRoundTrip(t: LinkDisplayType)
    ensures t in AllCases
    ensures FromRawValue(t.RawValue()) == Some(t)
  {
  }

  /** A string that is no case's raw value parses to nothing. */
  lemma FromRawValueNone(raw: string)
    requires forall i :: 0 <= i < |AllCases| ==> AllCases[i].RawValue() != raw
    ensures FromRawValue(raw).None?
  {
    assert AllCases[0].RawValue() != raw && AllCases[1].RawValue() != raw && AllCases[2].RawValue() != raw;
    assert AllCases[3].RawValue() != raw && AllCases[4].RawValue() != raw && AllCases[5].RawValue() != raw;
    assert AllCases[6].RawValue() != raw && AllCases[7].RawValue() != raw && AllCases[8].RawValue() != raw;
  }

  /** The raw values are pairwise different. */
  lemma RawValuesDistinct(t: LinkDisplayType, u: LinkDisplayType)
    requires t != u
    ensures t.RawValue() != u.RawValue()
  {
    AllCasesRoundTrip(t);
    AllCasesRoundTrip(u);
  }

  /**
   * The screen's starting display type: the saved preference when it names
   * a case, the share page otherwise (nothing saved, or an unknown value).
   */
  function InitialLinkDisplayType(saved: Option<string>): (r: LinkDisplayType)
    ensures saved.Some? && FromRawValue(saved.value).Some? ==> r.RawValue() == saved.value
    ensures saved.None? || FromRawValue(saved.value).None? ==> r == SharePage
  {
    if saved.Some? && FromRawValue(saved.value).Some? then FromRawValue(saved.value).value else SharePage
  }

  /** A saved preference written from a display type restores that type. */
  lemma InitialLinkDisplayTypeRestores(t: LinkDisplayType)
    ensures InitialLinkDisplayType(Some(t.RawValue())) == t
  {
    AllCasesRoundTrip(t);
  }

  /** The clickable forms show the bare direct URL or share page. */
  lemma ClickableShowsBareLink(t: LinkDisplayType, file: UploadedFile)
    requires t.IsClickableURL()
    ensures t.Formatted(file) == file.url || t.Formatted(file) == file.page
  {
  }

  /** For a file whose share page is its direct URL, the with-link forms equal the direct-link forms. */
  lemma WithLinkOnDirectPage(file: UploadedFile)
    requires file.page == file.url
    ensures BBCodeWithLink.Formatted(file) == BBCodeDirectLink.Formatted(file)
    ensures HtmlWithLink.Formatted(file) == HtmlDirectLink.Formatted(file)
  {
    var name, url := file.filename, file.url;
    assert BBCodeWithLink.Formatted(file) == BBCodeWithLink.Render(name, url, url);
    assert HtmlWithLink.Formatted(file) == HtmlWithLink.Render(name, url, url);
    RenderWithLinkOnDirectPage(name, url);
  }

  /** `WithLinkOnDirectPage` over the name and the direct URL. */
  lemma RenderWithLinkOnDirectPage(name: string, url: string)
    ensures BBCodeWithLink.Render(name, url, url) == BBCodeDirectLink.Render(name, url, url)
    ensures HtmlWithLink.Render(name, url, url) == HtmlDirectLink.Render(name, url, url)
  {
    L.WithLinkOnDirectUrl(name, url);
  }

  /** Markdown for a file is an image embed exactly when the formatter calls the file an image. */
  lemma MarkdownEmbedsImages(file: UploadedFile)
    ensures L.CategoryOf(file.filename) == L.Image ==>
      Markdown.Formatted(file) == "![" + file.filename + "](" + file.url + ")"
    ensures L.CategoryOf(file.filename) != L.Image ==>
      Markdown.Formatted(file) == "[" + file.filename + "](" + file.url + ")"
  {
    var name, page, url := file.filename, file.page, file.url;
    assert Markdown.Formatted(file) == Markdown.Render(name, page, url);
    RenderMarkdown(name, page, url);
  }

  /** `MarkdownEmbedsImages` over the name, share page and direct URL. */
  lemma RenderMarkdown(name: string, page: string, url: string)
    ensures L.CategoryOf(name) == L.Image ==> Markdown.Render(name, page, url) == "![" + name + "](" + url + ")"
    ensures L.CategoryOf(name) != L.Image ==> Markdown.Render(name, page, url) == "[" + name + "](" + url + ")"
  {
    L.MarkdownShapes(name, url);
  }

  /** Each file's rendering, in the order of `files`. */
  function FormattedAll(t: LinkDisplayType, files: seq<UploadedFile>): (r: seq<string>)
    ensures |r| == |files|
    ensures forall i :: 0 <= i < |files| ==> r[i] == t.Formatted(files[i])
  {
    seq(|files|, i requires 0 <= i < |files| => t.Formatted(files[i]))
  }

  /** `batchText`: the files' renderings joined by line breaks. */
  function BatchText(t: LinkDisplayType, files: seq<UploadedFile>): string
  {
    Join(FormattedAll(t, files), "\n")
  }

  /**
   * When no rendering spans lines, the batch text splits back into exactly
   * one line per file, in order.
   */
  lemma BatchTextLines(t: LinkDisplayType, files: seq<UploadedFile>)
    requires |files| >= 1
    requires forall i :: 0 <= i < |files| ==> '\n' !in t.Formatted(files[i])
    ensures Split(BatchText(t, files), '\n') == FormattedAll(t, files)
  {
    SplitJoin(FormattedAll(t, files), '\n');
  }

  /** The `"WxH"` caption part. */
  function Dimensions(width: int, height: int): string
  {
    IntToString(width) + "x" + IntToString(height)
  }

  lemma NoXInNumber(i: int)
    ensures 'x' !in IntToString(i)
  {
    var s := IntToString(i);
    var digits := if i < 0 then NatToRadix(-i, 10) else NatToRadix(i, 10);
    assert forall k :: 0 <= k < |digits| ==> DigitValue(digits[k], 10) >= 0;
    assert DigitValue('x', 10) < 0;
    assert s == digits || s == "-" + digits;
  }

  /** The `"WxH"` part splits at `x` into two numerals that parse back to the width and height. */
  lemma DimensionsRoundTrip(width: int, height: int)
    ensures Split(Dimensions(width, height), 'x') == [IntToString(width), IntToString(height)]
    ensures ParseInt(Split(Dimensions(width, height), 'x')[0]) == Some(width)
    ensures ParseInt(Split(Dimensions(width, height), 'x')[1]) == Some(height)
  {
    var a, b := IntToString(width), IntToString(height);
    NoXInNumber(width);
    NoXInNumber(height);
    assert Dimensions(width, height) == a + ['x'] + b;
    SplitAtSeparator(a, b, 'x');
    SplitPrefix(b, [], 'x');
    assert b + [] == b;
    IntToStringRoundTrip(width);
    IntToStringRoundTrip(height);
  }

  /**
   * `sizeInfo`: the formatted size, then `" · WxH"` when both width and
   * height are known. The byte-count formatting is the `formattedSize`
   * parameter.
   */
  method SizeInfo(formattedSize: string, width: Option<int>, height: Option<int>) returns (r: string)
    ensures width.Some? && height.Some? ==> r == formattedSize + " · " + Dimensions(width.value, height.value)
    ensures width.None? || height.None? ==> r == formattedSize
  {
    var parts := [formattedSize];
    if width.Some? && height.Some? {
      parts := parts + [Dimensions(width.value, height.value)];
      assert parts[1..] == [Dimensions(width.value, height.value)];
      assert Join(parts[1..], " · ") == Dimensions(width.value, height.value);
    }
    r := Join(parts, " · ");
  }

  function IsSelected(selected: set<int>): UploadedFile -> bool
  {
    (f: UploadedFile) => f.fileID in selected
  }

  /** `selectedFiles`: the files whose id is selected, in the order of `files`. */
  function SelectedFiles(files: seq<UploadedFile>, selected: set<int>): (r: seq<UploadedFile>)
    ensures |r| <= |files|
    ensures forall i :: 0 <= i < |r| ==> r[i] in files && r[i].fileID in selected
    ensures forall i :: 0 <= i < |files| ==> (files[i] in r <==> files[i].fileID in selected)
  {
    FilterMembers(files, IsSelected(selected));
    Filter(files, IsSelected(selected))
  }

  /** Selecting from two stretches of the list keeps their order: the selection of `a + b` is that of `a`, then of `b`. */
  lemma SelectedFilesKeepOrder(a: seq<UploadedFile>, b: seq<UploadedFile>, selected: set<int>)
    ensures SelectedFiles(a + b, selected) == SelectedFiles(a, selected) + SelectedFiles(b, selected)
  {
    FilterAppend(a, b, IsSelected(selected));
  }

  /** The screen's own state: the selected file ids, the page shown and the display type. */
  class FileUploadScreen {
    var selectedFileIDs: set<int>
    var currentPage: int
    var linkDisplayType: LinkDisplayType

    constructor (saved: Option<string>)
      ensures selectedFileIDs == {} && currentPage == 1
      ensures linkDisplayType == InitialLinkDisplayType(saved)
    {
      selectedFileIDs := {};
      currentPage := 1;
      linkDisplayType := InitialLinkDisplayType(saved);
    }

    /** `fileTotalPages`. */
    function FileTotalPages(files: seq<UploadedFile>): (r: nat)
      ensures r >= 1 && |files| <= r * Pagination.PageSize
    {
      Pagination.TotalPages(|files|)
    }

    /** `pagedFiles`: the files of the current page. */
    function PagedFiles(files: seq<UploadedFile>): (r: seq<UploadedFile>)
      requires currentPage >= 1
      reads this
      ensures |r| <= Pagination.PageSize
      ensures r == Pagination.Page(files, currentPage)
      ensures var start := (currentPage - 1) * Pagination.PageSize;
        && (start < |files| ==> |r| == Pagination.Min(Pagination.PageSize, |files| - start))
        && (start >= |files| ==> r == [])
        && forall k :: 0 <= k < |r| ==> start + k < |files| && r[k] == files[start + k]
    {
      Pagination.Page(files, currentPage)
    }

    /** Tapping a row's circle: removes the id if selected, inserts it otherwise. */
    method TapCircle(fileID: int)
      modifies this
      ensures fileID in selectedFileIDs <==> fileID !in old(selectedFileIDs)
      ensures selectedFileIDs == ListState.Toggled(old(selectedFileIDs), fileID)
      ensures currentPage == old(currentPage) && linkDisplayType == old(linkDisplayType)
    {
      if fileID in selectedFileIDs {
        selectedFileIDs := selectedFileIDs - {fileID};
      } else {
        selectedFileIDs := selectedFileIDs + {fileID};
      }
    }

    /** The pagination control's page change. */
    method ChangePage(page: int)
      modifies this
      ensures currentPage == page
      ensures selectedFileIDs == old(selectedFileIDs) && linkDisplayType == old(linkDisplayType)
    {
      currentPage := page;
    }
  }
}
