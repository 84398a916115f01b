/** The macOS `UploadedFile` record kept in the local SwiftData store. */
module UploadedFileModel {
  import opened Wrappers
  import opened Text
  import SwiftLinkFormatter

  /** The extensions `isImage` accepts; narrower than the formatter's image list. */
  const ImageExtensions: set<string> := {"jpg", "jpeg", "png", "gif", "webp", "bmp", "svg", "heic"}

  /** One uploaded file; `size` is an `Int64` byte count and `createdAt` a clock reading. */
  datatype UploadedFile = UploadedFile(
    fileID: int,
    filename: string,
    storename: string,
    size: int,
    width: Option<int>,
    height: Option<int>,
    url: string,
    page: string,
    path: string,
    deleteHash: string,
    deleteURL: string,
    createdAt: int)
  {
    /** `isImage`: the lower-cased path extension is one of the eight image extensions. */
    predicate IsImage()
    {
      Lower(PathExtension(filename)) in ImageExtensions
    }
  }

  /**
   * The initializer: every argument lands in the field of the same name;
   * `width`/`height` default to nil at the call site and `createdAt` to the
   * current time `now`.
   */
  function NewUploadedFile(
    fileID: int, filename: string, storename: string, size: int,
    width: Option<int>, height: Option<int>, url: string, page: string, path: string,
    deleteHash: string, deleteURL: string, createdAt: Option<int>, now: int): (f: UploadedFile)
    ensures f.fileID == fileID && f.filename == filename && f.storename == storename && f.size == size
    ensures f.width == width && f.height == height && f.url == url && f.page == page && f.path == path
    ensures f.deleteHash == deleteHash && f.deleteURL == deleteURL
    ensures createdAt.Some? ==> f.createdAt == createdAt.value
    ensures createdAt.None? ==> f.createdAt == now
  {
    UploadedFile(fileID, filename, storename, size, width, height, url, page, path, deleteHash, deleteURL,
                 createdAt.GetOr(now))
  }

  /** The check ignores ASCII case: `"A.PNG"` and `"a.png"` agree. */
  lemma IsImageIgnoresCase(f: UploadedFile)
    ensures f.(filename := Lower(f.filename)).IsImage() == f.IsImage()
  {
    PathExtensionLower(f.filename);
    LowerIdempotent(PathExtension(f.filename));
  }

  /** Every file `isImage` accepts is an image to the link formatter too. */
  lemma IsImageIsFormatterImage(f: UploadedFile)
    requires f.IsImage()
    ensures SwiftLinkFormatter.CategoryOf(f.filename) == SwiftLinkFormatter.Image
  {
  }

  /** `avif`, `ico` and `tiff` files are images to the link formatter but not to `isImage`. */
  lemma IsImageNarrowerThanFormatter(f: UploadedFile)
    requires Lower(PathExtension(f.filename)) in {"avif", "ico", "tiff"}
    ensures !f.IsImage()
    ensures SwiftLinkFormatter.CategoryOf(f.filename) == SwiftLinkFormatter.Image
  {
    NotListedImage(Lower(PathExtension(f.filename)));
  }

  lemma NotListedImage(ext: string)
    requires ext in {"avif", "ico", "tiff"}
    ensures ext !in ImageExtensions && ext in SwiftLinkFormatter.ImageExtensions
  {
  }
}
