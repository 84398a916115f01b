/**
 * The macOS thumbnail service: the CDN query for a thumbnail, the cache
 * key (a 64-bit multiplicative hash of the request rendered in base 16),
 * and the two-level cache: a memory dictionary in front of a directory
 * of files, filled from the CDN. Image decoding and the CDN's reply are
 * parameters.
 */
module ThumbnailService {
  import opened Wrappers
  import opened Text
  import opened Utf8

  const CdnBase := "https://cache.seecdn.net/"

  /** `thumbnailURL`'s query items, in order. */
  function ThumbnailQuery(originalURL: string, width: int, height: int): (r: seq<(string, string)>)
    ensures |r| == 5
    ensures r[0] == ("url", originalURL) && r[3] == ("fit", "cover") && r[4] == ("a", "attention")
    ensures r[1].0 == "w" && ParseInt(r[1].1) == Some(width)
    ensures r[2].0 == "h" && ParseInt(r[2].1) == Some(height)
  {
    IntToStringRoundTrip(width);
    IntToStringRoundTrip(height);
    [("url", originalURL), ("w", IntToString(width)), ("h", IntToString(height)), ("fit", "cover"), ("a", "attention")]
  }

  // ---------------------------------------------------------------- cache key

  const Seed: nat := 5381
  /** `hash & 0x00ff_ffff_ffff_ffff` keeps the low 56 bits: the remainder modulo 2^56. */
  const Low56: nat := 0x100_0000_0000_0000
  /** `UInt64` arithmetic wraps modulo 2^64. */
  const Word: nat := 0x1_0000_0000_0000_0000
  const Bound63: nat := 0x8000_0000_0000_0000

  /** The text that is hashed: `"\(url)_\(width)x\(height)"`. */
  function RawKey(url: string, width: int, height: int): string
  {
    url + "_" + IntToString(width) + "x" + IntToString(height)
  }

  /** One step of the hash in exact arithmetic. */
  function Step(h: nat, b: byte): nat
  {
    127 * (h % Low56) + b as nat
  }

  /** The hash of `bytes` continued from `h`, in exact arithmetic. */
  function HashFrom(h: nat, bytes: seq<byte>): nat
    decreases |bytes|
  {
    if bytes == [] then h else HashFrom(Step(h, bytes[0]), bytes[1..])
  }

  /** A step never reaches 2^63, whatever it starts from. */
  lemma StepBelow63(h: nat, b: byte)
    ensures Step(h, b) < Bound63
  {
    var low := h % Low56;
    assert low <= Low56 - 1;
    assert 127 * low <= 127 * (Low56 - 1);
  }

  /** So the wrapping multiply and add of the source agree with exact arithmetic on every step. */
  lemma WrappingStepIsExact(h: nat, b: byte)
    ensures (127 * (h % Low56) % Word + b as nat) % Word == Step(h, b)
  {
    StepBelow63(h, b);
    assert 127 * (h % Low56) < Bound63;
  }

  /** The key: the hash of the raw key's UTF-8 bytes in lower-case base 16. */
  function CacheKeyOf(url: string, width: int, height: int): string
  {
    NatToRadix(HashFrom(Seed, Encode(RawKey(url, width, height))), 16)
  }

  /**
   * `cacheKey(for:width:height:)`: the loop over the UTF-8 bytes with
   * `UInt64` wrap-around written out; it computes the exact hash, which
   * stays below 2^63.
   */
  method CacheKey(url: string, width: int, height: int) returns (key: string)
    ensures key == CacheKeyOf(url, width, height)
  {
    var bytes := Encode(RawKey(url, width, height));
    var hash: nat := Seed;
    var i := 0;
    while i < |bytes|
      invariant 0 <= i <= |bytes|
      invariant hash < Word
      invariant HashFrom(hash, bytes[i..]) == HashFrom(Seed, bytes)
    {
      assert bytes[i..][1..] == bytes[i + 1..];
      hash := Mix(hash, bytes[i]);
      i := i + 1;
    }
    assert bytes[i..] == [];
    key := NatToRadix(hash, 16);
  }

  /** The loop body: `hash & 0x00ff_ffff_ffff_ffff`, then `&* 127` and `&+ byte` on `UInt64`. */
  method Mix(hash: nat, b: byte) returns (next: nat)
    requires hash < Word
    ensures next == Step(hash, b) && next < Word
  {
    WrappingStepIsExact(hash, b);
    StepBelow63(hash, b);
    next := (127 * (hash % Low56) % Word + b as nat) % Word;
  }

  /** Every hash value stays below 2^63, so it is a non-negative `Int64` as well. */
  lemma {:induction false} HashBelow63(h: nat, bytes: seq<byte>)
    requires h < Bound63
    ensures HashFrom(h, bytes) < Bound63
    decreases |bytes|
  {
    if bytes != [] {
      StepBelow63(h, bytes[0]);
      HashBelow63(Step(h, bytes[0]), bytes[1..]);
    }
  }

  function Pow16(k: nat): nat
  {
    if k == 0 then 1 else 16 * Pow16(k - 1)
  }

  /** A number below 16^k takes at most k hex digits. */
  lemma {:induction false} HexLength(n: nat, k: nat)
    requires k >= 1 && n < Pow16(k)
    ensures |NatToRadix(n, 16)| <= k
    decreases k
  {
    if n >= 16 {
      DivisionShrinks(n, 16);
      assert n / 16 < Pow16(k - 1);
      HexLength(n / 16, k - 1);
    }
  }

  /**
   * The key is a lower-case hex numeral of at most 16 digits, safe as a
   * file name, that reads back as the hash of the request.
   */
  lemma CacheKeyIsHexOfHash(url: string, width: int, height: int)
    ensures var key := CacheKeyOf(url, width, height);
      && IsNumeral(key, 16)
      && 1 <= |key| <= 16
      && ParseNumeral(key, 16) == HashFrom(Seed, Encode(RawKey(url, width, height)))
  {
    var n := HashFrom(Seed, Encode(RawKey(url, width, height)));
    HashBelow63(Seed, Encode(RawKey(url, width, height)));
    assert Pow16(16) == Word by {
      assert Pow16(4) == 0x1_0000;
      assert Pow16(8) == 0x1_0000_0000 by {
        assert Pow16(5) == 0x10_0000 && Pow16(6) == 0x100_0000 && Pow16(7) == 0x1000_0000;
      }
      assert Pow16(12) == 0x1_0000_0000_0000 by {
        assert Pow16(9) == 0x10_0000_0000 && Pow16(10) == 0x100_0000_0000 && Pow16(11) == 0x1000_0000_0000;
      }
      assert Pow16(13) == 0x10_0000_0000_0000 && Pow16(14) == 0x100_0000_0000_0000;
      assert Pow16(15) == 0x1000_0000_0000_0000;
    }
    HexLength(n, 16);
    NatToRadixRoundTrip(n, 16);
  }

  // -------------------------------------------------------------------- cache

  /** A decoded image; what it shows is not modelled. */
  datatype Image = Image(source: seq<byte>)

  /** What the CDN request did: threw, or returned a reply with a status and data. */
  datatype Fetch = FetchFailed | Fetched(isHTTP: bool, statusCode: int, data: seq<byte>)

  /** The reply the service accepts: HTTP 200 with data. */
  predicate Usable(fetch: Fetch)
  {
    fetch.Fetched? && fetch.isHTTP && fetch.statusCode == 200 && fetch.data != []
  }

  class ThumbnailCache {
    /** `memoryCache`, keyed by cache key. */
    var memoryCache: map<string, Image>
    /** The files of the thumbnail directory, by name. */
    var diskCache: map<string, seq<byte>>

    constructor ()
      ensures memoryCache == map[] && diskCache == map[]
    {
      memoryCache := map[];
      diskCache := map[];
    }

    /**
     * `loadThumbnail`: a memory hit is returned as it is; otherwise a file
     * that decodes, then a usable CDN reply that decodes (written to disk
     * first), is remembered in memory under the key and returned. Nothing
     * else enters the memory cache.
     */
    method LoadThumbnail(originalURL: string, width: int, height: int,
                         decode: seq<byte> -> Option<Image>, fetch: Fetch)
      returns (r: Option<Image>)
      modifies this
      ensures var key := CacheKeyOf(originalURL, width, height);
        && (key in old(memoryCache) ==>
              r == Some(old(memoryCache)[key]) && memoryCache == old(memoryCache) && diskCache == old(diskCache))
        && (key !in old(memoryCache) && key in old(diskCache) && decode(old(diskCache)[key]).Some? ==>
              r == decode(old(diskCache)[key]) && diskCache == old(diskCache))
        && (key !in old(memoryCache) && !(key in old(diskCache) && decode(old(diskCache)[key]).Some?) ==>
              && r == (if Usable(fetch) then decode(fetch.data) else None)
              && diskCache == (if Usable(fetch) then old(diskCache)[key := fetch.data] else old(diskCache)))
        && (r.Some? ==> memoryCache == old(memoryCache)[key := r.value])
        && (r.None? ==> memoryCache == old(memoryCache))
        && (diskCache == old(diskCache) || (Usable(fetch) && diskCache == old(diskCache)[key := fetch.data]))
    {
      var key := CacheKey(originalURL, width, height);
      if key in memoryCache {
        return Some(memoryCache[key]);
      }
      if key in diskCache {
        var image := decode(diskCache[key]);
        if image.Some? {
          memoryCache := memoryCache[key := image.value];
          return image;
        }
      }
      if !Usable(fetch) {
        return None;
      }
      diskCache := diskCache[key := fetch.data];
      var image := decode(fetch.data);
      if image.Some? {
        memoryCache := memoryCache[key := image.value];
        return image;
      }
      return None;
    }

    /** `clearCache`: the memory cache is empty, and the directory is recreated empty. */
    method ClearCache()
      modifies this
      ensures memoryCache == map[] && diskCache == map[]
    {
      memoryCache := map[];
      diskCache := map[];
    }
  }
}
