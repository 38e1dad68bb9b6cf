/** The photo-list editor of `EditRankingItemScreen`
    (`src/screens/Core/EditRankingItemScreen/index.tsx`): the screen holds the item's name and a
    list of images keyed by their local `uri`, prefilled from the server's copy of the item;
    picked images are appended while they upload and are updated or dropped when the upload
    ends; saving sends the trimmed name and the ids of the stored files. */
module EditRankingItem {
  import opened Wrappers
  import opened JsString
  import opened RankingItems

  /** `UploadFileResponse` (the fields the server always sends as `null` are omitted). */
  datatype UploadedFile = UploadedFile(
    id: string, name: string, url: string, path: string, mimetype: string, size: int,
    createdAt: string, updatedAt: string)

  /** `EditableImage`: optional properties are `Option`s. */
  datatype EditableImage = EditableImage(
    uri: string, uploaded: Option<UploadedFile>, loading: Option<bool>, error: Option<bool>,
    existingId: Option<string>)

  /** `UpdateRankingItemRequest`; `name` is `None` for `undefined`. */
  datatype UpdateRequest = UpdateRequest(rankingId: string, rankingItemId: string, name: Option<string>, photos: seq<string>)

  /** `{ uri, loading: true }`: the entry added for a picked image while it uploads. It is
      well-formed and has no photo id to save yet. */
  function PendingImage(uri: string): (img: EditableImage)
    ensures img.uri == uri && img.loading == Some(true)
    ensures WellFormed(img) && PhotoIdOf(img).None?
  {
    EditableImage(uri, None, Some(true), None, None)
  }

  /** An uploaded image is no longer loading, and an image still loading is neither uploaded
      nor one of the item's existing photos. */
  predicate WellFormed(img: EditableImage) {
    && (img.uploaded.Some? ==> img.loading == Some(false))
    && (img.loading == Some(true) ==> img.uploaded.None? && img.existingId.None?)
  }

  predicate AllWellFormed(images: seq<EditableImage>) {
    forall i :: 0 <= i < |images| ==> WellFormed(images[i])
  }

  /** `!!p.photo?.uri`: the photo has a non-empty display URI. */
  predicate HasUri(p: RankingItemUserPhoto) {
    p.photo.uri.Some? && p.photo.uri.value != ""
  }

  /** `{ uri: p.photo.uri, existingId: p.photoId }`: a well-formed image that shows the photo
      and, when saved unchanged, sends back its `photoId` (if non-empty). */
  function ImageOfPhoto(p: RankingItemUserPhoto): (img: EditableImage)
    requires HasUri(p)
    ensures img.uri == p.photo.uri.value && img.uploaded.None? && img.existingId == Some(p.photoId)
    ensures WellFormed(img)
    ensures PhotoIdOf(img) == if p.photoId != "" then Some(p.photoId) else None
  {
    EditableImage(p.photo.uri.value, None, None, None, Some(p.photoId))
  }

  /** The prefill mapping: the photos that have a URI, in order, each as an image tagged with
      its `photoId`. An image is produced exactly when it is the image of such a photo. */
  function PhotosToImages(photos: seq<RankingItemUserPhoto>): (r: seq<EditableImage>)
    ensures |r| <= |photos|
    ensures forall x :: x in r <==> exists p :: p in photos && HasUri(p) && x == ImageOfPhoto(p)
    ensures AllWellFormed(r)
  {
    if photos == [] then []
    else
      var rest := PhotosToImages(photos[1..]);
      assert forall p :: p in photos <==> p == photos[0] || p in photos[1..];
      (if HasUri(photos[0]) then [ImageOfPhoto(photos[0])] else []) + rest
  }

  /** The map of a successful upload: exactly the entries whose `uri` matches gain `uploaded`
      and stop loading; the length and every other entry are unchanged. */
  function MarkUploaded(images: seq<EditableImage>, uri: string, file: UploadedFile): (r: seq<EditableImage>)
    ensures |r| == |images|
    ensures forall i :: 0 <= i < |r| ==>
      r[i] == if images[i].uri == uri then images[i].(uploaded := Some(file), loading := Some(false)) else images[i]
  {
    if images == [] then []
    else
      var img := images[0];
      [if img.uri == uri then img.(uploaded := Some(file), loading := Some(false)) else img]
        + MarkUploaded(images[1..], uri, file)
  }

  /** The map of an image that failed to display: exactly the entries whose `uri` matches are
      flagged with `error`. */
  function MarkError(images: seq<EditableImage>, uri: string): (r: seq<EditableImage>)
    ensures |r| == |images|
    ensures forall i :: 0 <= i < |r| ==>
      r[i] == if images[i].uri == uri then images[i].(error := Some(true)) else images[i]
  {
    if images == [] then []
    else
      var img := images[0];
      [if img.uri == uri then img.(error := Some(true)) else img] + MarkError(images[1..], uri)
  }

  /** `prev.filter(img => img.uri !== uri)`: the entries with that `uri` are removed, and no
      other entry is. */
  function WithoutUri(images: seq<EditableImage>, uri: string): (r: seq<EditableImage>)
    ensures |r| <= |images|
    ensures forall x :: x in r <==> x in images && x.uri != uri
  {
    if images == [] then []
    else
      assert forall x :: x in images <==> x == images[0] || x in images[1..];
      (if images[0].uri != uri then [images[0]] else []) + WithoutUri(images[1..], uri)
  }

  /** `i.uploaded?.id || i.existingId`, kept only when truthy: the uploaded file's id when it is
      non-empty, else the existing photo id when that is non-empty, else nothing. */
  function PhotoIdOf(img: EditableImage): (id: Option<string>)
    ensures id.Some? <==> (img.uploaded.Some? && img.uploaded.value.id != "")
                          || (img.existingId.Some? && img.existingId.value != "")
    ensures id.Some? ==> id.value != ""
    ensures img.uploaded.Some? && img.uploaded.value.id != "" ==> id == Some(img.uploaded.value.id)
    ensures (!(img.uploaded.Some? && img.uploaded.value.id != "")
             && img.existingId.Some? && img.existingId.value != "") ==> id == img.existingId
  {
    if img.uploaded.Some? && img.uploaded.value.id != "" then Some(img.uploaded.value.id)
    else if img.existingId.Some? && img.existingId.value != "" then img.existingId
    else None
  }

  /** The photo list of `handleSave`: the ids of the images, in image order, dropping the
      images that have none. It is never longer than the list and holds no empty id. */
  function SavePhotoIds(images: seq<EditableImage>): (ids: seq<string>)
    ensures |ids| <= |images|
    ensures forall k :: 0 <= k < |ids| ==> ids[k] != ""
  {
    if images == [] then []
    else
      var first := PhotoIdOf(images[0]);
      (if first.Some? then [first.value] else []) + SavePhotoIds(images[1..])
  }

  /** `name.trim() || undefined`: the trimmed name, or nothing when the name is blank. */
  function SavedName(name: string): (r: Option<string>)
    ensures r.None? <==> AllWhitespace(name)
    ensures r.Some? ==> r.value == Trim(name) && !IsWhitespace(r.value[0]) && !IsWhitespace(r.value[|r.value| - 1])
  {
    TrimEmptyIffAllWhitespace(name);
    if Trim(name) == "" then None else Some(Trim(name))
  }

  /** `rankingItems.find(i => i.id === rankingItemId)`: the first item with that id. */
  function FindItem(items: seq<RankingItem>, id: string): (r: Option<RankingItem>)
    ensures r.None? <==> forall k :: 0 <= k < |items| ==> items[k].id != id
    ensures r.Some? ==> exists k :: 0 <= k < |items| && items[k] == r.value && r.value.id == id
                                    && forall m :: 0 <= m < k ==> items[m].id != id
  {
    if items == [] then None
    else if items[0].id == id then Some(items[0])
    else
      var r := FindItem(items[1..], id);
      assert forall k :: 0 < k < |items| ==> items[k] == items[1..][k - 1];
      r
  }

  /** The screen's state: the edited name and the image list. */
  class EditRankingItemScreen {
    const rankingId: string
    const rankingItemId: string
    var name: string
    var images: seq<EditableImage>

    predicate Valid()
      reads this
    {
      AllWellFormed(images)
    }

    /** The screen opens with an empty name and no images. */
    constructor(rankingId: string, rankingItemId: string)
      ensures Valid()
      ensures this.rankingId == rankingId && this.rankingItemId == rankingItemId
      ensures name == "" && images == []
    {
      this.rankingId := rankingId;
      this.rankingItemId := rankingItemId;
      name := "";
      images := [];
    }

    /** The prefill effect. Nothing happens while the items are not loaded or when none has
      this item's id. Otherwise a non-empty name is kept, an empty one takes the item's name;
      the images are replaced by the item's photos only when the list is empty and the item has
      photos. */
    method Prefill(rankingItems: Option<seq<RankingItem>>)
      requires Valid()
      modifies this
      ensures Valid()
      ensures rankingItems.None? || FindItem(rankingItems.value, rankingItemId).None? ==>
        name == old(name) && images == old(images)
      ensures rankingItems.Some? && FindItem(rankingItems.value, rankingItemId).Some? ==>
        var current := FindItem(rankingItems.value, rankingItemId).value;
        && name == (if old(name) != "" then old(name) else current.name)
        && images == (if old(images) == [] && current.rankingItemUserPhoto != []
                      then PhotosToImages(current.rankingItemUserPhoto) else old(images))
    {
      if rankingItems.None? {
        return;
      }
      var current := FindItem(rankingItems.value, rankingItemId);
      if current.None? {
        return;
      }
      var item := current.value;
      if name == "" {
        name := item.name;
      }
      if images == [] && item.rankingItemUserPhoto != [] {
        images := PhotosToImages(item.rankingItemUserPhoto);
      }
    }

    /** Typing in the name field. */
    method SetName(value: string)
      requires Valid()
      modifies this
      ensures Valid()
      ensures name == value && images == old(images)
    {
      name := value;
    }

    /** A picked image is appended as a pending entry; earlier entries are unchanged. */
    method AddPendingImage(uri: string)
      requires Valid()
      modifies this
      ensures Valid()
      ensures images == old(images) + [PendingImage(uri)] && name == old(name)
    {
      images := images + [PendingImage(uri)];
    }

    /** The upload of the image `uri` succeeded with `file`. */
    method UploadSucceeded(uri: string, file: UploadedFile)
      requires Valid()
      modifies this
      ensures Valid()
      ensures images == MarkUploaded(old(images), uri, file) && name == old(name)
    {
      images := MarkUploaded(images, uri, file);
    }

    /** The upload of the image `uri` failed: its entries are dropped. */
    method UploadFailed(uri: string)
      requires Valid()
      modifies this
      ensures Valid()
      ensures images == WithoutUri(old(images), uri) && name == old(name)
    {
      images := WithoutUri(images, uri);
    }

    /** The image `uri` could not be displayed. */
    method ImageLoadFailed(uri: string)
      requires Valid()
      modifies this
      ensures Valid()
      ensures images == MarkError(old(images), uri) && name == old(name)
    {
      images := MarkError(images, uri);
    }

    /** `removeImage`: the entries of `uri` are dropped. */
    method RemoveImage(uri: string)
      requires Valid()
      modifies this
      ensures Valid()
      ensures images == WithoutUri(old(images), uri) && name == old(name)
    {
      images := WithoutUri(images, uri);
    }

    /** `handleSave`: the update request, with the trimmed name (or none) and the photo ids. An
      image still uploading contributes no id. */
    method HandleSave() returns (request: UpdateRequest)
      requires Valid()
      ensures request.rankingId == rankingId && request.rankingItemId == rankingItemId
      ensures request.name == SavedName(name)
      ensures request.photos == SavePhotoIds(images)
    {
      request := UpdateRequest(rankingId, rankingItemId, SavedName(name), SavePhotoIds(images));
    }
  }

  /** Every entry with the given `uri` is removed, as often as it occurs, and every other entry
      is kept as often as it occurs. */
  lemma {:induction false} WithoutUriCounts(images: seq<EditableImage>, uri: string, x: EditableImage)
    ensures multiset(WithoutUri(images, uri))[x] == if x.uri == uri then 0 else multiset(images)[x]
  {
    if images != [] {
      assert images == [images[0]] + images[1..];
      WithoutUriCounts(images[1..], uri, x);
    }
  }

  /** Removal distributes over concatenation, so the remaining entries keep their order. */
  lemma {:induction false} WithoutUriConcat(a: seq<EditableImage>, b: seq<EditableImage>, uri: string)
    ensures WithoutUri(a + b, uri) == WithoutUri(a, uri) + WithoutUri(b, uri)
  {
    if a == [] {
      assert a + b == b;
    } else {
      assert (a + b)[1..] == a[1..] + b;
      WithoutUriConcat(a[1..], b, uri);
    }
  }

  /** A list without the `uri` is left unchanged. */
  lemma {:induction false} WithoutAbsentUri(images: seq<EditableImage>, uri: string)
    requires forall k :: 0 <= k < |images| ==> images[k].uri != uri
    ensures WithoutUri(images, uri) == images
  {
    if images != [] {
      WithoutAbsentUri(images[1..], uri);
    }
  }

  /** Removing twice is removing once. */
  lemma WithoutUriIdempotent(images: seq<EditableImage>, uri: string)
    ensures WithoutUri(WithoutUri(images, uri), uri) == WithoutUri(images, uri)
  {
    var r := WithoutUri(images, uri);
    forall k | 0 <= k < |r| ensures r[k].uri != uri {
      assert r[k] in r;
    }
    WithoutAbsentUri(r, uri);
  }

  /** A failed upload of a freshly picked image restores the list as it was before the pick. */
  lemma FailedUploadRestores(images: seq<EditableImage>, uri: string)
    requires forall k :: 0 <= k < |images| ==> images[k].uri != uri
    ensures WithoutUri(images + [PendingImage(uri)], uri) == images
  {
    WithoutUriConcat(images, [PendingImage(uri)], uri);
    WithoutAbsentUri(images, uri);
    assert WithoutUri([PendingImage(uri)], uri) == [];
  }

  lemma {:induction false} SavePhotoIdsConcat(a: seq<EditableImage>, b: seq<EditableImage>)
    ensures SavePhotoIds(a + b) == SavePhotoIds(a) + SavePhotoIds(b)
  {
    if a == [] {
      assert a + b == b;
    } else {
      assert (a + b)[1..] == a[1..] + b;
      SavePhotoIdsConcat(a[1..], b);
    }
  }

  /** A single image contributes its photo id, if it has one. */
  lemma SavePhotoIdsSingle(img: EditableImage)
    ensures SavePhotoIds([img]) == if PhotoIdOf(img).Some? then [PhotoIdOf(img).value] else []
  {
    assert [img][1..] == [];
  }

  /** The save list holds exactly the photo ids of the images. */
  lemma {:induction false} SavePhotoIdsExactly(images: seq<EditableImage>)
    ensures forall x :: x in SavePhotoIds(images) <==> exists k :: 0 <= k < |images| && PhotoIdOf(images[k]) == Some(x)
  {
    if images != [] {
      SavePhotoIdsExactly(images[1..]);
      assert forall k :: 0 < k < |images| ==> images[k] == images[1..][k - 1];
      forall x | x in SavePhotoIds(images)
        ensures exists k :: 0 <= k < |images| && PhotoIdOf(images[k]) == Some(x)
      {
        if x !in SavePhotoIds(images[1..]) {
          assert PhotoIdOf(images[0]) == Some(x);
        } else {
          var k :| 0 <= k < |images[1..]| && PhotoIdOf(images[1..][k]) == Some(x);
          assert PhotoIdOf(images[k + 1]) == Some(x);
        }
      }
      forall x | exists k :: 0 <= k < |images| && PhotoIdOf(images[k]) == Some(x)
        ensures x in SavePhotoIds(images)
      {
        var k :| 0 <= k < |images| && PhotoIdOf(images[k]) == Some(x);
        if k > 0 {
          assert PhotoIdOf(images[1..][k - 1]) == Some(x);
        }
      }
    }
  }

  /** The prefill mapping distributes over concatenation, so the images keep the photos'
      order and multiplicity. */
  lemma {:induction false} PhotosToImagesConcat(a: seq<RankingItemUserPhoto>, b: seq<RankingItemUserPhoto>)
    ensures PhotosToImages(a + b) == PhotosToImages(a) + PhotosToImages(b)
  {
    if a == [] {
      assert a + b == b;
    } else {
      var head := if HasUri(a[0]) then [ImageOfPhoto(a[0])] else [];
      assert (a + b)[0] == a[0] && (a + b)[1..] == a[1..] + b;
      assert PhotosToImages(a + b) == head + PhotosToImages(a[1..] + b);
      assert PhotosToImages(a) == head + PhotosToImages(a[1..]);
      PhotosToImagesConcat(a[1..], b);
    }
  }

  /** A single photo becomes its image when it has a URI, and nothing otherwise. */
  lemma PhotosToImagesSingle(p: RankingItemUserPhoto)
    ensures PhotosToImages([p]) == if HasUri(p) then [ImageOfPhoto(p)] else []
  {
    assert [p][1..] == [];
  }

  lemma {:induction false} MarkUploadedConcat(a: seq<EditableImage>, b: seq<EditableImage>, uri: string, file: UploadedFile)
    ensures MarkUploaded(a + b, uri, file) == MarkUploaded(a, uri, file) + MarkUploaded(b, uri, file)
  {
    if a == [] {
      assert a + b == b;
    } else {
      assert (a + b)[1..] == a[1..] + b;
      MarkUploadedConcat(a[1..], b, uri, file);
    }
  }

  /** A well-formed image that is still loading contributes no id to the save. */
  lemma LoadingImageNotSaved(img: EditableImage)
    requires WellFormed(img) && img.loading == Some(true)
    ensures PhotoIdOf(img).None?
  {
  }

  /** Saving while a picked image uploads sends what it sent before the pick. */
  lemma PendingImageNotSaved(images: seq<EditableImage>, uri: string)
    ensures SavePhotoIds(images + [PendingImage(uri)]) == SavePhotoIds(images)
  {
    SavePhotoIdsConcat(images, [PendingImage(uri)]);
    assert SavePhotoIds([PendingImage(uri)]) == [];
  }

  /** Once a picked image has uploaded as a file with a non-empty id, the save sends that id
      after the ids of the earlier images. */
  lemma UploadedImageSaved(images: seq<EditableImage>, uri: string, file: UploadedFile)
    requires file.id != ""
    ensures SavePhotoIds(MarkUploaded(images + [PendingImage(uri)], uri, file))
         == SavePhotoIds(MarkUploaded(images, uri, file)) + [file.id]
  {
    var single := MarkUploaded([PendingImage(uri)], uri, file);
    MarkUploadedConcat(images, [PendingImage(uri)], uri, file);
    SavePhotoIdsConcat(MarkUploaded(images, uri, file), single);
    assert SavePhotoIds(single) == [file.id] by {
      assert single[0].uploaded == Some(file);
      assert SavePhotoIds(single[1..]) == [];
    }
  }

  /** The photo ids of an item's photos that would be prefilled: those with a URI and a
      non-empty `photoId`, in order. */
  function ExistingPhotoIds(photos: seq<RankingItemUserPhoto>): seq<string> {
    if photos == [] then []
    else (if HasUri(photos[0]) && photos[0].photoId != "" then [photos[0].photoId] else [])
         + ExistingPhotoIds(photos[1..])
  }

  /** Saving right after the prefill sends back the ids of the item's photos that have a URI. */
  lemma {:induction false} PrefillThenSave(photos: seq<RankingItemUserPhoto>)
    ensures SavePhotoIds(PhotosToImages(photos)) == ExistingPhotoIds(photos)
  {
    if photos != [] {
      PrefillThenSave(photos[1..]);
      var head := if HasUri(photos[0]) then [ImageOfPhoto(photos[0])] else [];
      SavePhotoIdsConcat(head, PhotosToImages(photos[1..]));
    }
  }
}
