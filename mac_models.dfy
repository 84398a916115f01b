/**
 * The macOS app's stored records: `ShortLink` and `TextShare` are
 * SwiftData models, objects whose fields the ViewModels update in place,
 * kept in a model context that inserts and deletes them. `TextType` is
 * the raw-valued enum of text kinds.
 */
module MacModels {
  import opened Wrappers
  import opened Seqs

  datatype TextType = PlainText | SourceCode | Markdown
  {
    function RawValue(): string
    {
      match this
      case PlainText => "plain_text"
      case SourceCode => "source_code"
      case Markdown => "markdown"
    }
  }

  /** `TextType(rawValue:)`. */
  function TextTypeFromRawValue(raw: string): (r: Option<TextType>)
  {
    if raw == "plain_text" then Some(PlainText)
    else if raw == "source_code" then Some(SourceCode)
    else if raw == "markdown" then Some(Markdown)
    else None
  }

  /** Raw values round-trip, and only the three raw values parse. */
  lemma TextTypeRoundTrip(t: TextType, raw: string)
    ensures TextTypeFromRawValue(t.RawValue()) == Some(t)
    ensures TextTypeFromRawValue(raw).Some? <==> raw in {"plain_text", "source_code", "markdown"}
    ensures TextTypeFromRawValue(raw).Some? ==> TextTypeFromRawValue(raw).value.RawValue() == raw
  {
  }

  class ShortLink {
    var slug: string
    var domain: string
    var targetURL: string
    var shortURL: string
    var title: string
    var customSlug: Option<string>
    var hasPassword: bool
    var expireAt: Option<int>
    var createdAt: int
    var tagIDs: seq<int>

    /** The initializer stores each argument in the field of the same name. */
    constructor (slug: string, domain: string, targetURL: string, shortURL: string, title: string,
                 customSlug: Option<string>, hasPassword: bool, expireAt: Option<int>, createdAt: int,
                 tagIDs: seq<int>)
      ensures this.slug == slug && this.domain == domain && this.targetURL == targetURL
      ensures this.shortURL == shortURL && this.title == title && this.customSlug == customSlug
      ensures this.hasPassword == hasPassword && this.expireAt == expireAt && this.createdAt == createdAt
      ensures this.tagIDs == tagIDs
    {
      this.slug := slug;
      this.domain := domain;
      this.targetURL := targetURL;
      this.shortURL := shortURL;
      this.title := title;
      this.customSlug := customSlug;
      this.hasPassword := hasPassword;
      this.expireAt := expireAt;
      this.createdAt := createdAt;
      this.tagIDs := tagIDs;
    }
  }

  class TextShare {
    var slug: string
    var domain: string
    var shortURL: string
    var title: string
    var content: string
    var textType: string
    var customSlug: Option<string>
    var hasPassword: bool
    var expireAt: Option<int>
    var createdAt: int
    var tagIDs: seq<int>

    /** The initializer stores each argument in the field of the same name. */
    constructor (slug: string, domain: string, shortURL: string, title: string, content: string,
                 textType: string, customSlug: Option<string>, hasPassword: bool, expireAt: Option<int>,
                 createdAt: int, tagIDs: seq<int>)
      ensures this.slug == slug && this.domain == domain && this.shortURL == shortURL
      ensures this.title == title && this.content == content && this.textType == textType
      ensures this.customSlug == customSlug && this.hasPassword == hasPassword && this.expireAt == expireAt
      ensures this.createdAt == createdAt && this.tagIDs == tagIDs
    {
      this.slug := slug;
      this.domain := domain;
      this.shortURL := shortURL;
      this.title := title;
      this.content := content;
      this.textType := textType;
      this.customSlug := customSlug;
      this.hasPassword := hasPassword;
      this.expireAt := expireAt;
      this.createdAt := createdAt;
      this.tagIDs := tagIDs;
    }
  }

  /** The records of `xs` other than `x`, in their stored order. */
  function Without<T(==)>(xs: seq<T>, x: T): (r: seq<T>)
    ensures |r| <= |xs|
  {
    Filter(xs, y => y != x)
  }

  lemma WithoutAppend<T>(xs: seq<T>, y: T, x: T)
    ensures Without(xs + [y], x) == Without(xs, x) + (if y != x then [y] else [])
  {
    FilterAppend(xs, [y], z => z != x);
    assert Filter([y], z => z != x) == (if y != x then [y] else []) + Filter([], z => z != x);
  }

  /** `Without` keeps exactly the records that are not `x`. */
  lemma WithoutMembers<T>(xs: seq<T>, x: T)
    ensures forall y :: y in Without(xs, x) <==> y in xs && y != x
  {
    FilterMembers(xs, z => z != x);
    forall y | y in xs
      ensures y in Without(xs, x) <==> y != x
    {
      var k :| 0 <= k < |xs| && xs[k] == y;
    }
  }

  /** The stored records, in insertion order; `context.insert` and `context.delete`. */
  class ModelContext {
    var links: seq<ShortLink>
    var shares: seq<TextShare>

    constructor ()
      ensures links == [] && shares == []
    {
      links := [];
      shares := [];
    }

    method InsertLink(link: ShortLink)
      modifies this
      ensures links == old(links) + [link] && shares == old(shares)
    {
      links := links + [link];
    }

    /** Deleting a record removes that object, every time it is stored, and nothing else. */
    method DeleteLink(link: ShortLink)
      modifies this
      ensures link !in links && shares == old(shares)
      ensures forall l :: l in links <==> l in old(links) && l != link
      ensures links == Without(old(links), link)
    {
      var kept: seq<ShortLink> := [];
      var i := 0;
      while i < |links|
        invariant 0 <= i <= |links|
        invariant kept == Without(links[..i], link)
        invariant links == old(links) && shares == old(shares)
      {
        WithoutAppend(links[..i], links[i], link);
        if links[i] != link {
          kept := kept + [links[i]];
        }
        assert links[..i + 1] == links[..i] + [links[i]];
        i := i + 1;
      }
      assert links[..i] == links;
      WithoutMembers(links, link);
      links := kept;
    }

    method InsertShare(share: TextShare)
      modifies this
      ensures shares == old(shares) + [share] && links == old(links)
    {
      shares := shares + [share];
    }

    method DeleteShare(share: TextShare)
      modifies this
      ensures share !in shares && links == old(links)
      ensures forall s :: s in shares <==> s in old(shares) && s != share
      ensures shares == Without(old(shares), share)
    {
      var kept: seq<TextShare> := [];
      var i := 0;
      while i < |shares|
        invariant 0 <= i <= |shares|
        invariant kept == Without(shares[..i], share)
        invariant links == old(links) && shares == old(shares)
      {
        WithoutAppend(shares[..i], shares[i], share);
        if shares[i] != share {
          kept := kept + [shares[i]];
        }
        assert shares[..i + 1] == shares[..i] + [shares[i]];
        i := i + 1;
      }
      assert shares[..i] == shares;
      WithoutMembers(shares, share);
      shares := kept;
    }
  }
}
