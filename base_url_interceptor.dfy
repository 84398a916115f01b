/**
 * The Android request rewrite that points every API call at the base URL
 * the user stored: the placeholder prefix is dropped from the request's
 * path, the stored base's own path is put in front, and scheme, host and
 * port come from the stored base. Reading the stored base and parsing it
 * are parameters.
 *
 * OkHttp's `pathSegments` are percent-decoded, while the rewritten path is
 * handed back through `encodedPath`, so an escape in a request segment is
 * decoded once by the rewrite and once more when the new path is read:
 * `EscapedSlashSplits` and `EscapedPercentDecodedAgain` show it.
 */
module BaseUrlInterceptor {
  import opened Wrappers
  import opened Seqs
  import opened Text

  /** The parts of an OkHttp `HttpUrl` the rewrite reads or sets; `encodedPath` starts with `/`. */
  datatype HttpUrl = HttpUrl(scheme: string, host: string, port: int, encodedPath: string, query: Option<string>)

  /** The base URL Retrofit is built with, as OkHttp parses it. */
  const PlaceholderBase := HttpUrl("https", "s.ee", 443, "/api/v1/", None)

  // ---------------------------------------------------------------- percent-decoding

  /** OkHttp's `parseHexDigit`: the value of a hex digit of either case, or -1. */
  function HexValue(c: char): (v: int)
    ensures -1 <= v < 16
    ensures v >= 0 <==> '0' <= c <= '9' || 'a' <= c <= 'f' || 'A' <= c <= 'F'
  {
    if '0' <= c <= '9' then c as int - '0' as int
    else if 'a' <= c <= 'f' then c as int - 'a' as int + 10
    else if 'A' <= c <= 'F' then c as int - 'A' as int + 10
    else -1
  }

  /** A `%` followed by two hex digits starts at `i`. */
  predicate EscapeAt(s: string, i: int)
  {
    0 <= i && i + 2 < |s| && s[i] == '%' && HexValue(s[i + 1]) >= 0 && HexValue(s[i + 2]) >= 0
  }

  predicate NoEscape(s: string)
  {
    forall i :: 0 <= i < |s| ==> !EscapeAt(s, i)
  }

  /**
   * `percentDecode` without `+` handling: each `%` followed by two hex
   * digits becomes the character with that code, and every other character
   * is kept.
   */
  function PercentDecode(s: string): (r: string)
    ensures |r| <= |s|
    ensures EscapeAt(s, 0) ==> |r| >= 1 && r[0] as int == 16 * HexValue(s[1]) + HexValue(s[2])
    decreases |s|
  {
    if EscapeAt(s, 0) then [(16 * HexValue(s[1]) + HexValue(s[2])) as char] + PercentDecode(s[3..])
    else if s == [] then []
    else [s[0]] + PercentDecode(s[1..])
  }

  /** A string without escapes decodes to itself. */
  lemma {:induction false} DecodeWithoutEscape(s: string)
    requires NoEscape(s)
    ensures PercentDecode(s) == s
  {
    if s != [] {
      assert !EscapeAt(s, 0);
      assert forall i :: 0 <= i < |s[1..]| ==> (EscapeAt(s[1..], i) <==> EscapeAt(s, i + 1));
      DecodeWithoutEscape(s[1..]);
    }
  }

  lemma NoPercentNoEscape(s: string)
    requires '%' !in s
    ensures NoEscape(s)
  {
    forall i | 0 <= i < |s|
      ensures !EscapeAt(s, i)
    {
      assert s[i] in s;
    }
  }

  // ---------------------------------------------------------------- segments

  /** `encodedPathSegments`: the path after its leading `/`, split at every `/`. */
  function EncodedSegments(encodedPath: string): (r: seq<string>)
    ensures |r| >= 1
    ensures forall k :: 0 <= k < |r| ==> '/' !in r[k]
  {
    if |encodedPath| >= 1 && encodedPath[0] == '/' then Split(encodedPath[1..], '/') else Split(encodedPath, '/')
  }

  /** `pathSegments`: the encoded segments, each percent-decoded. */
  function PathSegments(encodedPath: string): (r: seq<string>)
    ensures |r| == |EncodedSegments(encodedPath)| >= 1
  {
    var e := EncodedSegments(encodedPath);
    seq(|e|, k requires 0 <= k < |e| => PercentDecode(e[k]))
  }

  /**
   * A path without `%` decodes to its encoded segments, so none of them
   * holds `/` or `%`.
   */
  lemma PlainPathSegments(encodedPath: string)
    requires '%' !in encodedPath
    ensures PathSegments(encodedPath) == EncodedSegments(encodedPath)
    ensures forall k :: 0 <= k < |PathSegments(encodedPath)| ==>
      '/' !in PathSegments(encodedPath)[k] && '%' !in PathSegments(encodedPath)[k]
  {
    var e := EncodedSegments(encodedPath);
    if |encodedPath| >= 1 && encodedPath[0] == '/' {
      assert '%' !in encodedPath[1..];
      SplitAvoids(encodedPath[1..], '/', '%');
    } else {
      SplitAvoids(encodedPath, '/', '%');
    }
    forall k | 0 <= k < |e|
      ensures PathSegments(encodedPath)[k] == e[k]
    {
      NoPercentNoEscape(e[k]);
      DecodeWithoutEscape(e[k]);
    }
  }

  /** `filter { it.isNotEmpty() }`. */
  function NonEmpty(segments: seq<string>): seq<string>
  {
    Filter(segments, s => s != "")
  }

  /** Filtering keeps exactly the non-empty segments. */
  lemma NonEmptySegments(segments: seq<string>)
    ensures forall k :: 0 <= k < |NonEmpty(segments)| ==> NonEmpty(segments)[k] != "" && NonEmpty(segments)[k] in segments
    ensures forall k :: 0 <= k < |segments| && segments[k] != "" ==> segments[k] in NonEmpty(segments)
  {
    FilterMembers(segments, s => s != "");
  }

  /** The placeholder's segments: exactly `["api", "v1"]`. */
  lemma PlaceholderSegments()
    ensures NonEmpty(PathSegments(PlaceholderBase.encodedPath)) == ["api", "v1"]
  {
    PlaceholderPathSegments();
    var segments: seq<string> := ["api", "v1", ""];
    assert segments[1..] == ["v1", ""] && segments[1..][1..] == [""] && segments[1..][1..][1..] == [];
    assert NonEmpty([""]) == [];
    assert NonEmpty(["v1", ""]) == ["v1"];
  }

  /** Before filtering, the trailing `/` leaves an empty last segment. */
  lemma PlaceholderPathSegments()
    ensures PathSegments(PlaceholderBase.encodedPath) == ["api", "v1", ""]
  {
    var p := PlaceholderBase.encodedPath[1..];
    assert p == "api" + ['/'] + ("v1" + ['/'] + "");
    SplitAtSeparator("api", "v1" + ['/'] + "", '/');
    SplitAtSeparator("v1", "", '/');
    PlainPathSegments(PlaceholderBase.encodedPath);
  }

  /** The request's segments with the placeholder prefix dropped when they start with it. */
  function RelativeSegments(original: seq<string>, placeholder: seq<string>): (r: seq<string>)
    ensures |original| >= |placeholder| && original[..|placeholder|] == placeholder ==> placeholder + r == original
    ensures !(|original| >= |placeholder| && original[..|placeholder|] == placeholder) ==> r == original
  {
    if |original| >= |placeholder| && original[..|placeholder|] == placeholder then
      assert original == original[..|placeholder|] + original[|placeholder|..];
      original[|placeholder|..]
    else original
  }

  /** The segments of the rewritten path: the stored base's, then the request's relative ones. */
  function AllSegments(currentBase: HttpUrl, original: HttpUrl): seq<string>
  {
    var placeholderSegments := NonEmpty(PathSegments(PlaceholderBase.encodedPath));
    var originalSegments := NonEmpty(PathSegments(original.encodedPath));
    NonEmpty(PathSegments(currentBase.encodedPath)) + RelativeSegments(originalSegments, placeholderSegments)
  }

  /** `"/" + allSegments.joinToString("/")`, joining decoded segments. */
  function NewPath(currentBase: HttpUrl, original: HttpUrl): string
  {
    "/" + Join(AllSegments(currentBase, original), "/")
  }

  /**
   * `intercept`: a stored base that does not parse leaves the request as it
   * is; otherwise scheme, host and port come from the base, the new path is
   * set as the encoded path, and the query is kept.
   */
  function Intercept(currentBase: Option<HttpUrl>, original: HttpUrl): (r: HttpUrl)
    ensures currentBase.None? ==> r == original
    ensures currentBase.Some? ==>
      && r.scheme == currentBase.value.scheme && r.host == currentBase.value.host && r.port == currentBase.value.port
      && r.query == original.query
      && r.encodedPath == NewPath(currentBase.value, original)
  {
    match currentBase
    case None => original
    case Some(base) =>
      original.(scheme := base.scheme, host := base.host, port := base.port, encodedPath := NewPath(base, original))
  }

  /** The relative segments are some of the request's non-empty decoded segments. */
  lemma RelativeFromOriginal(original: HttpUrl)
    ensures var rel := RelativeSegments(NonEmpty(PathSegments(original.encodedPath)), ["api", "v1"]);
      forall k :: 0 <= k < |rel| ==> rel[k] in NonEmpty(PathSegments(original.encodedPath))
  {
    var originalSegments := NonEmpty(PathSegments(original.encodedPath));
    var rel := RelativeSegments(originalSegments, ["api", "v1"]);
    if |originalSegments| >= 2 && originalSegments[..2] == ["api", "v1"] {
      forall k | 0 <= k < |rel|
        ensures rel[k] in originalSegments
      {
        assert rel[k] == originalSegments[k + 2];
      }
    }
  }

  /**
   * Every segment of the rewritten path is non-empty and is a decoded
   * segment of the base or of the request.
   */
  lemma AllSegmentsFrom(currentBase: HttpUrl, original: HttpUrl)
    ensures forall k :: 0 <= k < |AllSegments(currentBase, original)| ==>
      && AllSegments(currentBase, original)[k] != ""
      && (AllSegments(currentBase, original)[k] in PathSegments(currentBase.encodedPath)
          || AllSegments(currentBase, original)[k] in PathSegments(original.encodedPath))
  {
    NonEmptySegments(PathSegments(currentBase.encodedPath));
    NonEmptySegments(PathSegments(original.encodedPath));
    PlaceholderSegments();
    RelativeFromOriginal(original);
  }

  /**
   * Every segment of the rewritten path is non-empty; when neither the base
   * nor the request has a `%` in its path, none holds `/` or `%` either.
   */
  lemma AllSegmentsClean(currentBase: HttpUrl, original: HttpUrl)
    ensures forall k :: 0 <= k < |AllSegments(currentBase, original)| ==> AllSegments(currentBase, original)[k] != ""
    ensures '%' !in currentBase.encodedPath && '%' !in original.encodedPath ==>
      forall k :: 0 <= k < |AllSegments(currentBase, original)| ==>
        '/' !in AllSegments(currentBase, original)[k] && '%' !in AllSegments(currentBase, original)[k]
  {
    AllSegmentsFrom(currentBase, original);
    if '%' !in currentBase.encodedPath && '%' !in original.encodedPath {
      PlainPathSegments(currentBase.encodedPath);
      PlainPathSegments(original.encodedPath);
    }
  }

  /**
   * The new path starts with `/`; with no segments it is the root `/`, and
   * it reads back as exactly the combined segments when none of them holds
   * `/` or an escape.
   */
  lemma NewPathReadsBack(currentBase: HttpUrl, original: HttpUrl)
    ensures var path := NewPath(currentBase, original);
      var all := AllSegments(currentBase, original);
      && |path| >= 1 && path[0] == '/'
      && (all == [] ==> path == "/")
      && (all != [] && (forall k :: 0 <= k < |all| ==> '/' !in all[k] && NoEscape(all[k])) ==> PathSegments(path) == all)
  {
    var all := AllSegments(currentBase, original);
    var path := NewPath(currentBase, original);
    if all != [] && forall k :: 0 <= k < |all| ==> '/' !in all[k] && NoEscape(all[k]) {
      SplitJoin(all, '/');
      assert path[1..] == Join(all, "/");
      assert EncodedSegments(path) == all;
      forall k | 0 <= k < |all|
        ensures PathSegments(path)[k] == all[k]
      {
        DecodeWithoutEscape(all[k]);
      }
    }
  }

  /** The rewritten path of a request without `%` reads back as its combined segments. */
  lemma PlainRequestReadsBack(currentBase: HttpUrl, original: HttpUrl)
    requires '%' !in currentBase.encodedPath && '%' !in original.encodedPath
    requires AllSegments(currentBase, original) != []
    ensures PathSegments(NewPath(currentBase, original)) == AllSegments(currentBase, original)
  {
    var all := AllSegments(currentBase, original);
    AllSegmentsClean(currentBase, original);
    forall k | 0 <= k < |all|
      ensures NoEscape(all[k])
    {
      NoPercentNoEscape(all[k]);
    }
    NewPathReadsBack(currentBase, original);
  }

  /**
   * With the placeholder itself stored, a request under `api/v1` keeps its
   * decoded segments up to empty ones, and a request without `%` reads back
   * with those segments after the rewrite.
   */
  lemma PlaceholderKeepsApiPaths(original: HttpUrl)
    requires var s := NonEmpty(PathSegments(original.encodedPath)); |s| >= 2 && s[..2] == ["api", "v1"]
    ensures AllSegments(PlaceholderBase, original) == NonEmpty(PathSegments(original.encodedPath))
    ensures '%' !in original.encodedPath ==>
      PathSegments(NewPath(PlaceholderBase, original)) == NonEmpty(PathSegments(original.encodedPath))
  {
    PlaceholderSegments();
    if '%' !in original.encodedPath {
      PlainRequestReadsBack(PlaceholderBase, original);
    }
  }

  /**
   * A request outside `api/v1` is not left alone by the placeholder: the
   * prefix is put in front of its decoded segments, and a request without
   * `%` reads back that way after the rewrite.
   */
  lemma PlaceholderPrefixesOtherPaths(original: HttpUrl)
    requires var s := NonEmpty(PathSegments(original.encodedPath)); !(|s| >= 2 && s[..2] == ["api", "v1"])
    ensures AllSegments(PlaceholderBase, original) == ["api", "v1"] + NonEmpty(PathSegments(original.encodedPath))
    ensures '%' !in original.encodedPath ==>
      PathSegments(NewPath(PlaceholderBase, original)) == ["api", "v1"] + NonEmpty(PathSegments(original.encodedPath))
  {
    PlaceholderSegments();
    if '%' !in original.encodedPath {
      PlainRequestReadsBack(PlaceholderBase, original);
    }
  }

  // ---------------------------------------------------------------- escapes in requests

  /**
   * A request under `api/v1` whose last segment is sent as `head%2Ftail`
   * (`deleteFile` with the hash `head/tail` is one): that segment decodes
   * to `head/tail`, and the rewritten path reads back with `head` and
   * `tail` as two segments.
   */
  lemma EscapedSlashSplits(front: seq<string>, head: string, tail: string)
    requires |front| >= 2 && front[..2] == ["api", "v1"]
    requires forall k :: 0 <= k < |front| ==> front[k] != "" && '/' !in front[k] && '%' !in front[k]
    requires head != "" && tail != "" && '/' !in head && '/' !in tail && '%' !in head && '%' !in tail
    ensures var original := HttpUrl("https", "s.ee", 443, "/" + Join(front + [head + "%2F" + tail], "/"), None);
      && NonEmpty(PathSegments(original.encodedPath)) == front + [head + "/" + tail]
      && NewPath(PlaceholderBase, original) == "/" + Join(front + [head, tail], "/")
      && PathSegments(NewPath(PlaceholderBase, original)) == front + [head, tail]
  {
    var original := HttpUrl("https", "s.ee", 443, "/" + Join(front + [head + "%2F" + tail], "/"), None);
    EscapedAllSegments(front, head, tail);
    JoinSlashInLast(front, head, tail);
    ReadClean(front, head, tail);
    ReadSegments(front + [head, tail]);
  }

  /** The request's non-empty segments, and so the rewritten ones, are the front and `head/tail`. */
  lemma EscapedAllSegments(front: seq<string>, head: string, tail: string)
    requires |front| >= 2 && front[..2] == ["api", "v1"]
    requires forall k :: 0 <= k < |front| ==> front[k] != "" && '/' !in front[k] && '%' !in front[k]
    requires '/' !in head && '/' !in tail && '%' !in head && '%' !in tail
    ensures var original := HttpUrl("https", "s.ee", 443, "/" + Join(front + [head + "%2F" + tail], "/"), None);
      && NonEmpty(PathSegments(original.encodedPath)) == front + [head + "/" + tail]
      && AllSegments(PlaceholderBase, original) == front + [head + "/" + tail]
  {
    var original := HttpUrl("https", "s.ee", 443, "/" + Join(front + [head + "%2F" + tail], "/"), None);
    var decoded := front + [head + "/" + tail];
    SentSegments(front, head, tail);
    forall k | 0 <= k < |decoded|
      ensures decoded[k] != ""
    {
      if k < |front| { assert decoded[k] == front[k]; } else { assert decoded[k] == head + "/" + tail; }
    }
    FilterKeepsAll(decoded, s => s != "");
    assert decoded[..2] == front[..2];
    PlaceholderKeepsApiPaths(original);
  }

  /** Joining with `head/tail` as one segment spells the same text as with two. */
  lemma JoinSlashInLast(front: seq<string>, head: string, tail: string)
    requires |front| >= 1
    ensures Join(front + [head + "/" + tail], "/") == Join(front + [head, tail], "/")
  {
    var j := Join(front, "/");
    calc {
      Join(front + [head + "/" + tail], "/");
      { JoinAppendOne(front, head + "/" + tail); }
      j + "/" + (head + "/" + tail);
      (j + "/" + head) + "/" + tail;
      { JoinAppendOne(front, head); }
      Join(front + [head], "/") + "/" + tail;
      { JoinAppendOne(front + [head], tail); }
      Join(front + [head] + [tail], "/");
      { assert front + [head] + [tail] == front + [head, tail]; }
      Join(front + [head, tail], "/");
    }
  }

  lemma ReadClean(front: seq<string>, head: string, tail: string)
    requires forall k :: 0 <= k < |front| ==> '/' !in front[k] && '%' !in front[k]
    requires '/' !in head && '/' !in tail && '%' !in head && '%' !in tail
    ensures var read := front + [head, tail];
      forall k :: 0 <= k < |read| ==> '/' !in read[k] && '%' !in read[k]
  {
    var read := front + [head, tail];
    forall k | 0 <= k < |read|
      ensures '/' !in read[k] && '%' !in read[k]
    {
      if k < |front| {
        assert read[k] == front[k];
      } else if k == |front| {
        assert read[k] == head;
      } else {
        assert read[k] == tail;
      }
    }
  }

  /** The request's segments decode to the front and `head/tail`. */
  lemma SentSegments(front: seq<string>, head: string, tail: string)
    requires forall k :: 0 <= k < |front| ==> '/' !in front[k] && '%' !in front[k]
    requires '/' !in head && '/' !in tail && '%' !in head && '%' !in tail
    ensures PathSegments("/" + Join(front + [head + "%2F" + tail], "/")) == front + [head + "/" + tail]
  {
    var last := head + "%2F" + tail;
    var sent := front + [last];
    var path := "/" + Join(sent, "/");
    assert EncodedSegments(path) == sent by {
      EscapeHasNoSlash(head, tail);
      SentEncoded(front, last);
    }
    SentDecoded(front, head, tail);
    DecodedSegments(path, sent, front + [head + "/" + tail]);
  }

  lemma EscapeHasNoSlash(head: string, tail: string)
    requires '/' !in head && '/' !in tail
    ensures '/' !in head + "%2F" + tail
  {
    var escape := "%2F";
    assert '/' !in escape by {
      assert escape == ['%', '2', 'F'];
    }
    assert '/' !in head + escape;
  }

  /** Slash-free segments joined under `/` are the path's encoded segments. */
  lemma SentEncoded(front: seq<string>, last: string)
    requires forall k :: 0 <= k < |front| ==> '/' !in front[k]
    requires '/' !in last
    ensures EncodedSegments("/" + Join(front + [last], "/")) == front + [last]
  {
    var sent := front + [last];
    var path := "/" + Join(sent, "/");
    forall k | 0 <= k < |sent|
      ensures '/' !in sent[k]
    {
      if k < |front| { assert sent[k] == front[k]; } else { assert sent[k] == last; }
    }
    assert path[1..] == Join(sent, "/");
    SplitJoin(sent, '/');
  }

  /** Each sent segment decodes to its counterpart; only the last has an escape. */
  lemma SentDecoded(front: seq<string>, head: string, tail: string)
    requires forall k :: 0 <= k < |front| ==> '%' !in front[k]
    requires '%' !in head && '%' !in tail
    ensures var sent := front + [head + "%2F" + tail];
      var decoded := front + [head + "/" + tail];
      forall k :: 0 <= k < |sent| ==> PercentDecode(sent[k]) == decoded[k]
  {
    var sent := front + [head + "%2F" + tail];
    var decoded := front + [head + "/" + tail];
    forall k | 0 <= k < |sent|
      ensures PercentDecode(sent[k]) == decoded[k]
    {
      if k < |front| {
        assert sent[k] == front[k] && decoded[k] == front[k];
        PlainDecodes(front[k]);
      } else {
        assert sent[k] == head + "%2F" + tail && decoded[k] == head + "/" + tail;
        DecodeEscapedSlash(head, tail);
      }
    }
  }

  /** A path whose encoded segments decode one by one to `decoded` has `decoded` as its segments. */
  lemma DecodedSegments(path: string, pieces: seq<string>, decoded: seq<string>)
    requires EncodedSegments(path) == pieces && |pieces| == |decoded|
    requires forall k :: 0 <= k < |pieces| ==> PercentDecode(pieces[k]) == decoded[k]
    ensures PathSegments(path) == decoded
  {
  }

  /** Segments free of `/` and `%`, joined under `/`, read back as themselves. */
  lemma ReadSegments(segments: seq<string>)
    requires |segments| >= 1
    requires forall k :: 0 <= k < |segments| ==> '/' !in segments[k] && '%' !in segments[k]
    ensures PathSegments("/" + Join(segments, "/")) == segments
  {
    var path := "/" + Join(segments, "/");
    assert path[1..] == Join(segments, "/");
    SplitJoin(segments, '/');
    forall k | 0 <= k < |segments|
      ensures PercentDecode(segments[k]) == segments[k]
    {
      PlainDecodes(segments[k]);
    }
  }

  lemma PlainDecodes(s: string)
    requires '%' !in s
    ensures PercentDecode(s) == s
  {
    NoPercentNoEscape(s);
    DecodeWithoutEscape(s);
  }

  /** An escape at the front becomes one character; decoding goes on after it. */
  lemma DecodeEscapeFront(hi: char, lo: char, rest: string)
    requires HexValue(hi) >= 0 && HexValue(lo) >= 0
    ensures PercentDecode(['%', hi, lo] + rest) == [(16 * HexValue(hi) + HexValue(lo)) as char] + PercentDecode(rest)
  {
    var s := ['%', hi, lo] + rest;
    assert EscapeAt(s, 0) && s[3..] == rest;
  }

  /** Text without `%` in front of an escaped `/` is kept, and the escape becomes `/`. */
  lemma DecodeEscapedSlash(head: string, tail: string)
    requires '%' !in head && '%' !in tail
    ensures PercentDecode(head + "%2F" + tail) == head + "/" + tail
  {
    var escaped := ['%', '2', 'F'] + tail;
    assert head + "%2F" + tail == head + escaped;
    assert PercentDecode(escaped) == "/" + tail by {
      DecodeEscapeFront('2', 'F', tail);
      PlainDecodes(tail);
    }
    DecodePlainFront(head, escaped);
  }

  /** Decoding passes over a front without `%` unchanged. */
  lemma {:induction false} DecodePlainFront(front: string, rest: string)
    requires '%' !in front
    ensures PercentDecode(front + rest) == front + PercentDecode(rest)
  {
    if front != [] {
      var s := front + rest;
      assert s[0] == front[0] && !EscapeAt(s, 0);
      assert s[1..] == front[1..] + rest;
      assert '%' !in front[1..];
      DecodePlainFront(front[1..], rest);
    } else {
      assert front + rest == rest;
    }
  }

  lemma {:induction false} JoinAppendOne(parts: seq<string>, last: string)
    requires |parts| >= 1
    ensures Join(parts + [last], "/") == Join(parts, "/") + "/" + last
  {
    if |parts| == 1 {
      assert (parts + [last])[1..] == [last];
    } else {
      assert (parts + [last])[1..] == parts[1..] + [last];
      JoinAppendOne(parts[1..], last);
    }
  }

  /**
   * A request segment `%2541` stands for the text `%41`: the rewrite joins
   * that decoded text into the new path, where it reads back as `A`.
   */
  lemma EscapedPercentDecodedAgain()
    ensures PercentDecode("%2541") == "%41"
    ensures PercentDecode(PercentDecode("%2541")) == "A"
  {
    assert "%2541" == ['%', '2', '5'] + "41";
    DecodeEscapeFront('2', '5', "41");
    PlainDecodes("41");
    assert "%41" == ['%', '4', '1'] + "";
    DecodeEscapeFront('4', '1', "");
  }
}
