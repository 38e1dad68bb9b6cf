/** `getImageUrl` of `src/utils/image.ts`: the public URL of a stored image. The bucket URL comes
    from a configuration module that is not part of this model, so it is a parameter. */
module Image {
  import opened Wrappers

  /** A `null`, `undefined` or empty image name. */
  predicate IsBlank(imageName: Option<string>) {
    imageName.None? || imageName.value == ""
  }

  /** `getImageUrl`: `''` for a blank name, otherwise `bucketUrl + '/' + name`. The result is
      empty exactly when the name is blank, and it then starts with the bucket URL and a slash. */
  function GetImageUrl(imageName: Option<string>, bucketUrl: string): (url: string)
    ensures url == "" <==> IsBlank(imageName)
    ensures !IsBlank(imageName) ==> |url| > |bucketUrl| + 1 && url[..|bucketUrl| + 1] == bucketUrl + "/"
  {
    if IsBlank(imageName) then "" else bucketUrl + "/" + imageName.value
  }

  /** The inverse of `GetImageUrl`: the image name behind a bucket URL, if the URL has one. */
  function ImageNameOf(url: string, bucketUrl: string): (name: Option<string>)
    ensures name.Some? ==> name.value != "" && url == bucketUrl + "/" + name.value
  {
    if |url| > |bucketUrl| + 1 && url[..|bucketUrl| + 1] == bucketUrl + "/" then
      assert url == url[..|bucketUrl| + 1] + url[|bucketUrl| + 1..];
      Some(url[|bucketUrl| + 1..])
    else
      None
  }

  /** The name is recovered from the URL by dropping `bucketUrl + '/'`. */
  lemma ImageUrlRoundTrip(name: string, bucketUrl: string)
    requires name != ""
    ensures ImageNameOf(GetImageUrl(Some(name), bucketUrl), bucketUrl) == Some(name)
  {
    var url := GetImageUrl(Some(name), bucketUrl);
    assert url[|bucketUrl| + 1..] == name;
  }

  /** Hence two non-empty names never share a URL. */
  lemma ImageUrlInjective(a: string, b: string, bucketUrl: string)
    requires a != "" && b != ""
    requires GetImageUrl(Some(a), bucketUrl) == GetImageUrl(Some(b), bucketUrl)
    ensures a == b
  {
    ImageUrlRoundTrip(a, bucketUrl);
    ImageUrlRoundTrip(b, bucketUrl);
  }
}
