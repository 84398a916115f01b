/**
 * The macOS short-link and text-share lists: the search filter over the
 * stored records (newest first, as the query returns them), the page of
 * the filtered list, when the page controls show, the page reset when the
 * search text changes, and the text-type badge.
 */
module MacListViews {
  import opened Text
  import opened MacModels
  import Pagination

  // ------------------------------------------------------------- short links

  /** A link matches a lower-cased query when its slug, target, title or domain contains it, ignoring case. */
  predicate LinkMatches(link: ShortLink, query: string)
    reads link
  {
    Contains(Lower(link.slug), query) || Contains(Lower(link.targetURL), query)
      || Contains(Lower(link.title), query) || Contains(Lower(link.domain), query)
  }

  /** `links.filter { … }` with a lower-cased query. */
  function MatchingLinks(links: seq<ShortLink>, query: string): (r: seq<ShortLink>)
    reads links
    ensures |r| <= |links|
  {
    if links == [] then []
    else (if LinkMatches(links[0], query) then [links[0]] else []) + MatchingLinks(links[1..], query)
  }

  /** `filteredLinks`: every link for an empty search, else the matching links. */
  function FilteredLinks(links: seq<ShortLink>, searchText: string): (r: seq<ShortLink>)
    reads links
    ensures searchText == "" ==> r == links
  {
    if searchText == "" then links else MatchingLinks(links, Lower(searchText))
  }

  /** The filter keeps exactly the matching links. */
  lemma {:induction false} MatchingLinksMembers(links: seq<ShortLink>, query: string)
    ensures forall l :: l in MatchingLinks(links, query) <==> l in links && LinkMatches(l, query)
  {
    if links != [] {
      MatchingLinksMembers(links[1..], query);
      assert links == [links[0]] + links[1..];
    }
  }

  /** The filter keeps the order of the list: it distributes over concatenation. */
  lemma {:induction false} MatchingLinksAppend(a: seq<ShortLink>, b: seq<ShortLink>, query: string)
    ensures MatchingLinks(a + b, query) == MatchingLinks(a, query) + MatchingLinks(b, query)
  {
    if a == [] {
      assert a + b == b;
    } else {
      assert (a + b)[0] == a[0] && (a + b)[1..] == a[1..] + b;
      MatchingLinksAppend(a[1..], b, query);
    }
  }

  /** With a search, a link is listed exactly when it is stored and matches the lower-cased search. */
  lemma FilteredLinksMembers(links: seq<ShortLink>, searchText: string)
    requires searchText != ""
    ensures forall l :: l in FilteredLinks(links, searchText) <==> l in links && LinkMatches(l, Lower(searchText))
  {
    MatchingLinksMembers(links, Lower(searchText));
  }

  // ------------------------------------------------------------- text shares

  /** A share matches when its title, content or slug contains the query, ignoring case; its domain is not searched. */
  predicate ShareMatches(share: TextShare, query: string)
    reads share
  {
    Contains(Lower(share.title), query) || Contains(Lower(share.content), query) || Contains(Lower(share.slug), query)
  }

  function MatchingShares(shares: seq<TextShare>, query: string): (r: seq<TextShare>)
    reads shares
    ensures |r| <= |shares|
  {
    if shares == [] then []
    else (if ShareMatches(shares[0], query) then [shares[0]] else []) + MatchingShares(shares[1..], query)
  }

  /** `filteredShares`: every share for an empty search, else the matching shares. */
  function FilteredShares(shares: seq<TextShare>, searchText: string): (r: seq<TextShare>)
    reads shares
    ensures searchText == "" ==> r == shares
  {
    if searchText == "" then shares else MatchingShares(shares, Lower(searchText))
  }

  lemma {:induction false} MatchingSharesMembers(shares: seq<TextShare>, query: string)
    ensures forall s :: s in MatchingShares(shares, query) <==> s in shares && ShareMatches(s, query)
  {
    if shares != [] {
      MatchingSharesMembers(shares[1..], query);
      assert shares == [shares[0]] + shares[1..];
    }
  }

  lemma {:induction false} MatchingSharesAppend(a: seq<TextShare>, b: seq<TextShare>, query: string)
    ensures MatchingShares(a + b, query) == MatchingShares(a, query) + MatchingShares(b, query)
  {
    if a == [] {
      assert a + b == b;
    } else {
      assert (a + b)[0] == a[0] && (a + b)[1..] == a[1..] + b;
      MatchingSharesAppend(a[1..], b, query);
    }
  }

  /** With a search, a share is listed exactly when it is stored and matches the lower-cased search. */
  lemma FilteredSharesMembers(shares: seq<TextShare>, searchText: string)
    requires searchText != ""
    ensures forall s :: s in FilteredShares(shares, searchText) <==> s in shares && ShareMatches(s, Lower(searchText))
  {
    MatchingSharesMembers(shares, Lower(searchText));
  }

  /** A share whose domain alone contains the query is not found. */
  lemma DomainIsNotSearched(share: TextShare, query: string)
    requires !Contains(Lower(share.title), query) && !Contains(Lower(share.content), query)
    requires !Contains(Lower(share.slug), query) && Contains(Lower(share.domain), query)
    ensures MatchingShares([share], query) == []
  {
  }

  /** `badgeText`: the label of a share's text type. */
  function BadgeText(textType: string): (r: string)
    ensures r in {"Code", "Markdown", "Text"}
  {
    if textType == SourceCode.RawValue() then "Code"
    else if textType == Markdown.RawValue() then "Markdown"
    else "Text"
  }

  /** The badge names the kind of each known type, and any other string reads as text. */
  lemma BadgeTextOfTypes(t: TextType, other: string)
    requires TextTypeFromRawValue(other).None?
    ensures BadgeText(t.RawValue()) == (match t case PlainText => "Text" case SourceCode => "Code" case Markdown => "Markdown")
    ensures BadgeText(other) == "Text"
  {
  }

  // ------------------------------------------------------------- list state

  /** The list's own state: the search text and the page shown. */
  class ListState {
    var searchText: string
    var currentPage: int

    constructor ()
      ensures searchText == "" && currentPage == 1
    {
      searchText := "";
      currentPage := 1;
    }

    /** The search field's binding; `.onChange(of: searchText)` sends the list back to page 1. */
    method SetSearchText(text: string)
      modifies this
      ensures searchText == text
      ensures currentPage == if text != old(searchText) then 1 else old(currentPage)
    {
      var changed := text != searchText;
      searchText := text;
      if changed {
        currentPage := 1;
      }
    }

    /** A tap on the page control stores the page it asks for. */
    method ChangePage(page: int)
      modifies this
      ensures currentPage == page && searchText == old(searchText)
    {
      currentPage := page;
    }

    /** `totalPages` of the filtered links. */
    function LinkTotalPages(links: seq<ShortLink>): (r: nat)
      reads this, links
      ensures r >= 1
    {
      Pagination.TotalPages(|FilteredLinks(links, searchText)|)
    }

    /** `pagedLinks`: the current page of the filtered links. */
    function PagedLinks(links: seq<ShortLink>): (r: seq<ShortLink>)
      requires currentPage >= 1
      reads this, links
      ensures |r| <= Pagination.PageSize
      ensures forall k :: 0 <= k < |r| ==> r[k] in FilteredLinks(links, searchText)
      ensures r == Pagination.Page(FilteredLinks(links, searchText), currentPage)
      ensures var start := (currentPage - 1) * Pagination.PageSize;
        && (start < |FilteredLinks(links, searchText)| ==> |r| == Pagination.Min(Pagination.PageSize, |FilteredLinks(links, searchText)| - start))
        && (start >= |FilteredLinks(links, searchText)| ==> r == [])
        && forall k :: 0 <= k < |r| ==> r[k] == FilteredLinks(links, searchText)[start + k]
    {
      var filtered := FilteredLinks(links, searchText);
      var r := Pagination.Page(filtered, currentPage);
      assert forall k :: 0 <= k < |r| ==> r[k] == filtered[(currentPage - 1) * Pagination.PageSize + k];
      r
    }

    /** The page control is in the list only when there is more than one page. */
    predicate ShowsLinkPagination(links: seq<ShortLink>)
      reads this, links
    {
      LinkTotalPages(links) > 1
    }

    /** `totalPages` of the filtered shares. */
    function ShareTotalPages(shares: seq<TextShare>): (r: nat)
      reads this, shares
      ensures r >= 1
    {
      Pagination.TotalPages(|FilteredShares(shares, searchText)|)
    }

    /** `pagedShares`: the current page of the filtered shares. */
    function PagedShares(shares: seq<TextShare>): (r: seq<TextShare>)
      requires currentPage >= 1
      reads this, shares
      ensures |r| <= Pagination.PageSize
      ensures forall k :: 0 <= k < |r| ==> r[k] in FilteredShares(shares, searchText)
      ensures r == Pagination.Page(FilteredShares(shares, searchText), currentPage)
      ensures var start := (currentPage - 1) * Pagination.PageSize;
        && (start < |FilteredShares(shares, searchText)| ==> |r| == Pagination.Min(Pagination.PageSize, |FilteredShares(shares, searchText)| - start))
        && (start >= |FilteredShares(shares, searchText)| ==> r == [])
        && forall k :: 0 <= k < |r| ==> r[k] == FilteredShares(shares, searchText)[start + k]
    {
      var filtered := FilteredShares(shares, searchText);
      var r := Pagination.Page(filtered, currentPage);
      assert forall k :: 0 <= k < |r| ==> r[k] == filtered[(currentPage - 1) * Pagination.PageSize + k];
      r
    }

    predicate ShowsSharePagination(shares: seq<TextShare>)
      reads this, shares
    {
      ShareTotalPages(shares) > 1
    }
  }

  /** After a search change the first page is shown, and it holds the first matches. */
  lemma NewSearchShowsFirstMatches(links: seq<ShortLink>, searchText: string)
    ensures var filtered := FilteredLinks(links, searchText);
      Pagination.Page(filtered, 1) == filtered[..if |filtered| < Pagination.PageSize then |filtered| else Pagination.PageSize]
  {
  }

  /** With at most one page of matches there is no page control, and the first page holds all of them. */
  lemma OnePageHidesControls(links: seq<ShortLink>, searchText: string)
    requires |FilteredLinks(links, searchText)| <= Pagination.PageSize
    ensures Pagination.TotalPages(|FilteredLinks(links, searchText)|) == 1
    ensures Pagination.Page(FilteredLinks(links, searchText), 1) == FilteredLinks(links, searchText)
  {
  }
}
