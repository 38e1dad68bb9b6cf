/** The image-cache configuration of `src/config/image-cache.ts`: cache-key prefixes per kind of
    image, the placeholder image, and the two helpers built on them. The
    placeholder and the bucket URL come from a configuration module that is not part of this
    model, so they are parameters. */
module ImageCache {
  import opened Wrappers
  import Image

  /** The keys of `CACHE_KEYS`. */
  datatype CacheKeyType = RankingBanner | UserAvatar | RankingDetailBanner | RankingItemPhoto

  /** `CACHE_KEYS[type]`: a non-empty kebab-case name, lower-case letters and dashes only. */
  function CacheKeyPrefix(t: CacheKeyType): (p: string)
    ensures p != []
    ensures forall k :: 0 <= k < |p| ==> ('a' <= p[k] <= 'z') || p[k] == '-'
  {
    match t
    case RankingBanner => "ranking-banner"
    case UserAvatar => "user-avatar"
    case RankingDetailBanner => "ranking-detail-banner"
    case RankingItemPhoto => "ranking-item-photo"
  }

  /** `generateCacheKey(type, identifier)`: the type's prefix, a dash, then the identifier. */
  function GenerateCacheKey(t: CacheKeyType, identifier: string): (key: string)
    ensures |key| == |CacheKeyPrefix(t)| + 1 + |identifier|
    ensures key[..|CacheKeyPrefix(t)|] == CacheKeyPrefix(t) && key[|CacheKeyPrefix(t)|] == '-'
    ensures key[|CacheKeyPrefix(t)| + 1..] == identifier
  {
    CacheKeyPrefix(t) + "-" + identifier
  }

  /** The key prefix of a type, dash included. */
  function Tag(t: CacheKeyType): string {
    CacheKeyPrefix(t) + "-"
  }

  /** The identifier of `key` if it starts with `tag`. */
  function StripTag(key: string, tag: string): (rest: Option<string>)
    ensures rest.Some? <==> tag <= key
    ensures rest.Some? ==> key == tag + rest.value
  {
    if tag <= key then
      assert key == tag + key[|tag|..];
      Some(key[|tag|..])
    else
      None
  }

  /** Reads a cache key back into its type and identifier, trying the four prefixes in turn. */
  function ParseCacheKey(key: string): (parsed: Option<(CacheKeyType, string)>)
    ensures parsed.Some? ==> GenerateCacheKey(parsed.value.0, parsed.value.1) == key
  {
    match StripTag(key, Tag(RankingBanner))
    case Some(id) => Some((RankingBanner, id))
    case None =>
    match StripTag(key, Tag(UserAvatar))
    case Some(id) => Some((UserAvatar, id))
    case None =>
    match StripTag(key, Tag(RankingDetailBanner))
    case Some(id) => Some((RankingDetailBanner, id))
    case None =>
    match StripTag(key, Tag(RankingItemPhoto))
    case Some(id) => Some((RankingItemPhoto, id))
    case None => None
  }

  /** No prefix-and-dash is a prefix of another's. */
  lemma TagsPrefixFree(t1: CacheKeyType, t2: CacheKeyType)
    requires t1 != t2
    ensures !(Tag(t1) <= Tag(t2))
  {
    var a, b := Tag(t1), Tag(t2);
    if t1 != UserAvatar && t2 != UserAvatar {
      assert a[8] != b[8];
    } else {
      assert a[0] != b[0];
    }
  }

  /** A key made with one prefix never starts with another type's prefix and dash. */
  lemma ForeignTagAbsent(t: CacheKeyType, u: CacheKeyType, identifier: string)
    requires t != u
    ensures !(Tag(u) <= GenerateCacheKey(t, identifier))
  {
    var key := GenerateCacheKey(t, identifier);
    TagsPrefixFree(u, t);
    TagsPrefixFree(t, u);
  }

  /** A generated key parses back to its type and identifier. */
  lemma CacheKeyRoundTrip(t: CacheKeyType, identifier: string)
    ensures ParseCacheKey(GenerateCacheKey(t, identifier)) == Some((t, identifier))
  {
    var key := GenerateCacheKey(t, identifier);
    assert key == Tag(t) + identifier;
    assert key[|Tag(t)|..] == identifier;
    forall u | u != t ensures StripTag(key, Tag(u)).None? {
      ForeignTagAbsent(t, u, identifier);
    }
  }

  /** Two cache keys coincide only when both the type and the identifier do: keys of different
      image types never collide, and for one type the key is injective in the identifier. */
  lemma CacheKeysNeverCollide(t1: CacheKeyType, id1: string, t2: CacheKeyType, id2: string)
    requires GenerateCacheKey(t1, id1) == GenerateCacheKey(t2, id2)
    ensures t1 == t2 && id1 == id2
  {
    CacheKeyRoundTrip(t1, id1);
    CacheKeyRoundTrip(t2, id2);
  }

  /** `getOptimizedImageUrl`: the placeholder for a blank name, otherwise the bucket URL of the
      image, which is what `getImageUrl` returns for it; the two differ only in their
      fallback. */
  function GetOptimizedImageUrl(imageName: Option<string>, bucketUrl: string, placeholderImage: string): (url: string)
    ensures Image.IsBlank(imageName) ==> url == placeholderImage
    ensures !Image.IsBlank(imageName) ==> url == Image.GetImageUrl(imageName, bucketUrl) && url != ""
  {
    if Image.IsBlank(imageName) then placeholderImage else bucketUrl + "/" + imageName.value
  }
}
