/** The response transform of `GetRankingItems` in
    `src/api/resources/core/get-ranking-items.ts`: each ranking item received from the server is
    copied with a display `uri` added to its creator's avatar and to each of its photos. The
    HTTP request itself is not part of this model. */
module RankingItems {
  import opened Wrappers
  import Image

  /** `Avatar`; `uri` is the field the transform adds. */
  datatype Avatar = Avatar(
    id: string, name: string, url: string, path: string, mimetype: string, size: int,
    createdAt: string, updatedAt: string, uri: Option<string>)

  datatype CreatedByUser = CreatedByUser(id: string, name: string, avatar: Avatar)

  /** `Photo`, with its optional `uri`. */
  datatype Photo = Photo(url: string, uri: Option<string>)

  datatype RankingItemUserPhoto = RankingItemUserPhoto(id: string, photoId: string, userId: string, photo: Photo)

  /** `GetRankingItemsResponse` (the fields the server always sends as `null` are omitted). */
  datatype RankingItem = RankingItem(
    id: string, name: string, createdAt: string, updatedAt: string,
    rankingItemUserPhoto: seq<RankingItemUserPhoto>, createdByUser: CreatedByUser, score: int)

  /** `url ? getImageUrl(url) : undefined`: the display URI of a stored file, present exactly
      when the URL is non-empty, never empty, and naming that file in the bucket. */
  function DisplayUri(url: string, bucketUrl: string): (uri: Option<string>)
    ensures uri.Some? <==> url != ""
    ensures uri.Some? ==> uri.value != "" && Image.ImageNameOf(uri.value, bucketUrl) == Some(url)
  {
    if url != "" then
      Image.ImageUrlRoundTrip(url, bucketUrl);
      Some(Image.GetImageUrl(Some(url), bucketUrl))
    else
      None
  }

  /** One photo entry with `photo.uri` (re)computed; everything else is kept. */
  function WithPhotoUri(p: RankingItemUserPhoto, bucketUrl: string): (q: RankingItemUserPhoto)
    ensures q.(photo := p.photo) == p && q.photo.url == p.photo.url
    ensures q.photo.uri == DisplayUri(p.photo.url, bucketUrl)
  {
    p.(photo := p.photo.(uri := DisplayUri(p.photo.url, bucketUrl)))
  }

  /** The inner `rankingItemUserPhoto.map(...)`: same length and order. */
  function WithPhotoUris(photos: seq<RankingItemUserPhoto>, bucketUrl: string): (r: seq<RankingItemUserPhoto>)
    ensures |r| == |photos|
    ensures forall i :: 0 <= i < |r| ==> r[i] == WithPhotoUri(photos[i], bucketUrl)
  {
    if photos == [] then [] else [WithPhotoUri(photos[0], bucketUrl)] + WithPhotoUris(photos[1..], bucketUrl)
  }

  /** One item transformed: the creator's avatar gains its `uri`, each photo gains its `uri`,
      and every other field of the item, of the creator and of the avatar is unchanged. */
  function TransformItem(item: RankingItem, bucketUrl: string): (t: RankingItem)
    ensures t.(createdByUser := item.createdByUser, rankingItemUserPhoto := item.rankingItemUserPhoto) == item
    ensures t.createdByUser.(avatar := item.createdByUser.avatar) == item.createdByUser
    ensures t.createdByUser.avatar.(uri := item.createdByUser.avatar.uri) == item.createdByUser.avatar
    ensures t.createdByUser.avatar.uri == DisplayUri(item.createdByUser.avatar.url, bucketUrl)
    ensures |t.rankingItemUserPhoto| == |item.rankingItemUserPhoto|
    ensures forall i :: 0 <= i < |t.rankingItemUserPhoto| ==>
      t.rankingItemUserPhoto[i] == WithPhotoUri(item.rankingItemUserPhoto[i], bucketUrl)
  {
    var user := item.createdByUser;
    item.(createdByUser := user.(avatar := user.avatar.(uri := DisplayUri(user.avatar.url, bucketUrl))),
          rankingItemUserPhoto := WithPhotoUris(item.rankingItemUserPhoto, bucketUrl))
  }

  /** The outer `response.data.map(...)`: same length and order. */
  function TransformItems(items: seq<RankingItem>, bucketUrl: string): (r: seq<RankingItem>)
    ensures |r| == |items|
    ensures forall i :: 0 <= i < |r| ==> r[i] == TransformItem(items[i], bucketUrl)
  {
    if items == [] then [] else [TransformItem(items[0], bucketUrl)] + TransformItems(items[1..], bucketUrl)
  }

  /** The transform only derives `uri` fields from the `url` fields it leaves alone, so
      applying it twice is applying it once. */
  lemma TransformItemsIdempotent(items: seq<RankingItem>, bucketUrl: string)
    ensures TransformItems(TransformItems(items, bucketUrl), bucketUrl) == TransformItems(items, bucketUrl)
  {
    var once := TransformItems(items, bucketUrl);
    var twice := TransformItems(once, bucketUrl);
    forall i | 0 <= i < |items| ensures twice[i] == once[i] {
      var photos := once[i].rankingItemUserPhoto;
      var photos2 := twice[i].rankingItemUserPhoto;
      assert |photos2| == |photos|;
      forall k | 0 <= k < |photos| ensures photos2[k] == photos[k] {
        assert photos2[k] == WithPhotoUri(photos[k], bucketUrl);
      }
      assert photos2 == photos;
    }
  }
}
