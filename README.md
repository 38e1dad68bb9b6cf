# Ranking-it client core in Dafny

This project models the logic of the ranking-it React Native client, the app in which users
create rankings, invite other users, and score ranking items against criteria. Screens,
styling and HTTP calls are not modelled. What is modelled is the logic between them, as
Dafny modules:

- **`General`**, **`Validation`**: the string helpers and validators. These strip a string to its
  digits, format a Brazilian phone number, check that a phone number has thirteen digits, and
  test an email against `^[^\s@]+@[^\s@]+\.[^\s@]+$`.
- **`Image`**, **`ImageCache`**: the image URL builders, the image-cache key prefixes and key
  generator. The bucket URL and the placeholder image are parameters.
- **`UserInvites`**, **`RankingItems`**: the normalisers that reshape server responses. These are
  the invite list and the ranking items with their display URIs.
- **`RankingItemDetail`**: the grouping of an item's scores by criterion. It is an imperative
  method whose loop invariants tie it to specification functions.
- **`EditRankingItem`**: the photo-list editor. It is a class holding the name and the image list.
  The list transforms are pure functions.
- **`CreateItemScore`**: the criteria-score editor. It is a class holding the entries, the
  selection and the displayed score. The merge, update and save filter are pure functions.
- **`ReactQuery`**: the query retry policy. It includes the module-level "slow network" flag, a
  trace function with a bound on the toasts shown, and the mutation error toast.
- **`InviteUserModal`**, **`InviteUserActionSheet`**: the two invite forms. Each is a class with
  the email and error fields and a log of the calls made to the parent component.

Two modules model the environment rather than the application:

- **`JsString`**: the ECMAScript built-ins the code relies on. These are the `\s` character class
  and `trim` (the ECMAScript whitespace and line-terminator table), `indexOf`, and `replace`
  with a string pattern, which replaces the first occurrence only.
- **`Wrappers`**: `Option`, standing for `null`/`undefined`.

`RankingItemVotes` holds the score records of `src/api/resources/core/get-ranking-item-votes.ts`.

## Model

| member | source | states |
|---|---|---|
| `JsString.Trim` | src/components/InviteUserModal/index.tsx:21 | `trim()` yields a contiguous slice of the input. Only whitespace lies outside it, and it neither starts nor ends with whitespace. |
| `JsString.TrimKeepsNonWhitespace` | src/components/InviteUserModal/index.tsx:21 | Trimming never removes a non-whitespace character: such a character occurs in the input iff it occurs in the trimmed string. |
| `JsString.TrimEmptyIffAllWhitespace` | src/screens/Core/EditRankingItemScreen/index.tsx:118 | The trimmed string is empty iff the input is all whitespace. |
| `JsString.TrimIdempotent` | src/screens/Core/EditRankingItemScreen/index.tsx:118 | Trimming twice equals trimming once. |
| `JsString.IndexOf` | src/utils/general.ts:8 | `indexOf` returns the first index at which the pattern occurs. `None` means it occurs nowhere. |
| `JsString.ReplaceFirst` | src/utils/general.ts:8 | `replace` with a string pattern replaces the first occurrence only. Its two cases are stated by `ReplaceFirstAbsent` and `ReplaceFirstAt`. |
| `JsString.ReplaceFirstAbsent` | src/utils/general.ts:8 | A string in which the pattern never occurs comes back unchanged. |
| `JsString.ReplaceFirstAt` | src/utils/general.ts:8 | At whatever index the first occurrence sits, the text before it is kept, it becomes the replacement, and the text after it is kept. |
| `General.KeepDigits` | src/utils/general.ts:4 | The result holds only ASCII digits and is never longer than the input. |
| `General.KeepDigitsCounts` | src/utils/general.ts:4 | Every digit is kept exactly as often as it occurs in the input; no non-digit is kept. |
| `General.KeepDigitsConcat` | src/utils/general.ts:4 | Digit stripping distributes over concatenation, so digits keep their original order. |
| `General.SanitizeString` | src/utils/general.ts:1-5 | `''` gives `''`. The result is all digits and has the same digit multiset as the input. |
| `General.SanitizeStringConcat` | src/utils/general.ts:4 | Sanitizing distributes over concatenation, so the output is the input's digits in order. |
| `General.SanitizeStringIdempotent` | src/utils/general.ts:1-5 | Sanitizing a sanitized string changes nothing. |
| `General.PhoneDigits` | src/utils/general.ts:8 | The national digits are digits only. `PhoneDigitsCount` states how many there are and `CountryCodeRemovedOnce` which `+55` is dropped. |
| `General.FormatPhoneNumber` | src/utils/general.ts:7-14 | Fewer than 3 national digits: the input is returned unchanged. 3 to 7 digits: `+55 (` d[0..2) `) ` d[2..]. 8 or more: `+55 (` d[0..2) `) ` d[2..7) `-` d[7..11). The result's digits are `55` followed by the first eleven national digits. |
| `General.CountryCodeRemovedOnce` | src/utils/general.ts:8 | Only the first `+55` is removed: a later one contributes the digits 5 and 5. |
| `General.FormatKeepsLaterCountryCode` | src/utils/general.ts:8 | Only the first `+55` is stripped: `+55+55` followed by one to five digits `x` formats as `+55 (55) x`. |
| `General.PhoneDigitsCount` | src/utils/general.ts:8 | The national digits are all of the input's digits, minus two when the input contains `+55`. |
| `General.FormattedPhoneDigits` | src/utils/general.ts:7-14 | With three or more national digits, the national digits of the formatted number are the input's first eleven. |
| `General.FormatPhoneNumberIdempotent` | src/utils/general.ts:7-14 | Formatting a formatted number changes nothing. |
| `Validation.IsValidPhoneNumber` | src/utils/validation.ts:5-10 | A number is valid iff it contains exactly 13 digits, whatever else it contains; `''` is not valid. |
| `Validation.NonDigitIrrelevant` | src/utils/validation.ts:8-9 | Inserting or removing a non-digit never changes validity. |
| `Validation.FormattedPhoneValidIff` | src/utils/validation.ts:9 | A formatted number is valid iff the input had at least 11 national digits. |
| `Validation.SplitDecidesRegex` | src/utils/validation.ts:13 | The regex matches iff four things hold at the first `@`: the part before it is non-empty, both parts lie in `[^\s@]`, and the domain has a `.` that is neither its first nor its last character. |
| `Validation.IsValidEmail` | src/utils/validation.ts:12-15 | `isValidEmail` is true iff the string matches `^[^\s@]+@[^\s@]+\.[^\s@]+$`, stated as a predicate on the string's pieces. |
| `Validation.EmailWithWhitespaceInvalid` | src/utils/validation.ts:13 | A string containing whitespace is never a valid email. |
| `Validation.EmailWithoutAtInvalid` | src/utils/validation.ts:13 | A string without `@` is never a valid email. |
| `Validation.EmailWithTwoAtsInvalid` | src/utils/validation.ts:13 | A string with two `@` is never a valid email. |
| `Image.GetImageUrl` | src/utils/image.ts:3-9 | The result is `''` iff the name is null, undefined or empty. Otherwise it is non-empty and starts with `bucketUrl + '/'`. |
| `Image.ImageNameOf` | src/utils/image.ts:8 | Recovering a name from a URL yields a non-empty name that rebuilds the URL. |
| `Image.ImageUrlRoundTrip` | src/utils/image.ts:8 | The name is recovered from its URL by dropping `bucketUrl + '/'`. |
| `Image.ImageUrlInjective` | src/utils/image.ts:8 | Two non-empty names never share a URL. |
| `ImageCache.CacheKeyPrefix` | src/config/image-cache.ts:9-14 | Each key type's prefix is non-empty and made of lower-case letters and dashes only. |
| `ImageCache.GenerateCacheKey` | src/config/image-cache.ts:35-37 | The key is the type's prefix, a dash, then the identifier. |
| `ImageCache.ParseCacheKey` | src/config/image-cache.ts:35-37 | A parsed key regenerates the key it came from. |
| `ImageCache.TagsPrefixFree` | src/config/image-cache.ts:9-14 | No prefix-plus-dash of one type is a prefix of another type's. |
| `ImageCache.ForeignTagAbsent` | src/config/image-cache.ts:36 | A key of one type never starts with another type's prefix and dash. |
| `ImageCache.CacheKeyRoundTrip` | src/config/image-cache.ts:35-37 | Every generated key parses back to its type and identifier. |
| `ImageCache.CacheKeysNeverCollide` | src/config/image-cache.ts:35-37 | Equal keys imply equal type and identifier: no collision across types, and the key is injective in the identifier. |
| `ImageCache.GetOptimizedImageUrl` | src/config/image-cache.ts:40-46 | A blank name gives the placeholder. Otherwise the result is non-empty and equals `getImageUrl`'s. |
| `UserInvites.AvatarPath` | src/api/resources/core/get-all-user-invites.ts:37 | The path is present iff there is an avatar with a non-empty URL, and it is then that URL. |
| `UserInvites.ToUserInvite` | src/api/resources/core/get-all-user-invites.ts:32-38 | `id` and `createdAt` are copied, and the ranking and inviter names are lifted out. The avatar path follows the rule above. |
| `UserInvites.ToUserInvites` | src/api/resources/core/get-all-user-invites.ts:32-38 | There is one record per invite, with the same length and order. |
| `UserInvites.UserInvitesOf` | src/api/resources/core/get-all-user-invites.ts:25-38 | The result has the invites' length, with ids in order. |
| `UserInvites.CountIgnored` | src/api/resources/core/get-all-user-invites.ts:25-28 | The response's `count` does not influence the result. |
| `UserInvites.ToUserInvitesConcat` | src/api/resources/core/get-all-user-invites.ts:32 | Normalising distributes over concatenation, so order is preserved. |
| `RankingItems.DisplayUri` | src/api/resources/core/get-ranking-items.ts:67-69 | A `uri` is set iff the url is non-empty. A set `uri` is non-empty and names that file in the bucket. |
| `RankingItems.WithPhotoUri` | src/api/resources/core/get-ranking-items.ts:73-79 | A photo entry keeps `id`, `photoId`, `userId` and `url`, and gains the display `uri`. |
| `RankingItems.WithPhotoUris` | src/api/resources/core/get-ranking-items.ts:72-80 | A photo list keeps its length and order. |
| `RankingItems.TransformItem` | src/api/resources/core/get-ranking-items.ts:61-81 | Every field of the item, creator and avatar is unchanged except the added `uri`s, and the photo list keeps its length and order. |
| `RankingItems.TransformItems` | src/api/resources/core/get-ranking-items.ts:61-81 | The output has the same length and order as the response. |
| `RankingItems.TransformItemsIdempotent` | src/api/resources/core/get-ranking-items.ts:61-81 | Applying the transform twice equals applying it once. |
| `RankingItemDetail.GroupScoresByCriteria` | src/screens/Core/RankingItemDetailScreen/index.tsx:27-35 | Undefined scores give an undefined grouping, and an empty list gives an empty one. Otherwise the keys come in first-seen order and the key set is the set of criterion ids. Each key holds exactly its criterion's scores, and every group is non-empty and headed by its own criterion. |
| `RankingItemDetail.GroupIsHomogeneous` | src/screens/Core/RankingItemDetailScreen/index.tsx:28-33 | Every score in a group belongs to that group's criterion. |
| `RankingItemDetail.GroupOfSeenId` | src/screens/Core/RankingItemDetailScreen/index.tsx:69 | The group of every id that occurs is non-empty, so `group[k][0]` is defined, and its first score belongs to `k`. |
| `RankingItemDetail.GroupCounts` | src/screens/Core/RankingItemDetailScreen/index.tsx:28-33 | Every score appears in exactly one group, its own criterion's, as often as in the input. |
| `RankingItemDetail.GroupConcat` | src/screens/Core/RankingItemDetailScreen/index.tsx:33 | Grouping distributes over concatenation, so each group keeps input order. |
| `RankingItemDetail.FirstSeenIdsDistinct` | src/screens/Core/RankingItemDetailScreen/index.tsx:29-31 | Each criterion id that occurs is listed exactly once as a key, and nothing else is. |
| `RankingItemDetail.GroupSizesSum` | src/screens/Core/RankingItemDetailScreen/index.tsx:29-33 | The group sizes add up to the number of scores. |
| `EditRankingItem.PhotosToImages` | src/screens/Core/EditRankingItemScreen/index.tsx:48-50 | It keeps only photos with a URI, each tagged with `existingId = photoId`, and produces nothing else. The results are well-formed. |
| `EditRankingItem.PhotosToImagesConcat` | src/screens/Core/EditRankingItemScreen/index.tsx:48-50 | The mapping distributes over concatenation, so the images keep the photos' order and multiplicity. |
| `EditRankingItem.PhotosToImagesSingle` | src/screens/Core/EditRankingItemScreen/index.tsx:49-50 | One photo gives its image when it has a URI, and nothing otherwise. |
| `EditRankingItem.ImageOfPhoto` | src/screens/Core/EditRankingItemScreen/index.tsx:50 | The image shows the photo's URI, carries `existingId = photoId`, is well-formed, and saves back the `photoId` when that is non-empty. |
| `EditRankingItem.MarkUploaded` | src/screens/Core/EditRankingItemScreen/index.tsx:100 | Exactly the entries with that uri gain `uploaded` and `loading = false`. The length and other entries are unchanged. |
| `EditRankingItem.MarkError` | src/screens/Core/EditRankingItemScreen/index.tsx:146-150 | Exactly the entries with that uri are flagged with `error`. |
| `EditRankingItem.WithoutUri` | src/screens/Core/EditRankingItemScreen/index.tsx:108 | An entry is kept iff it was present and has another uri. |
| `EditRankingItem.PhotoIdOf` | src/screens/Core/EditRankingItemScreen/index.tsx:113-114 | The id is `uploaded.id` if present and non-empty, else `existingId` if non-empty, else none. It is never empty. |
| `EditRankingItem.SavePhotoIds` | src/screens/Core/EditRankingItemScreen/index.tsx:112-114 | The save list is never longer than the images list and holds no empty id. |
| `EditRankingItem.SavePhotoIdsSingle` | src/screens/Core/EditRankingItemScreen/index.tsx:113-114 | One image contributes its photo id if it has one, and nothing otherwise. |
| `EditRankingItem.SavePhotoIdsConcat` | src/screens/Core/EditRankingItemScreen/index.tsx:112-114 | The save list distributes over concatenation, so the ids follow the image order. |
| `EditRankingItem.SavePhotoIdsExactly` | src/screens/Core/EditRankingItemScreen/index.tsx:112-114 | An id is in the save list exactly when some image has it as its photo id. |
| `EditRankingItem.SavedName` | src/screens/Core/EditRankingItemScreen/index.tsx:118 | The name is undefined iff it is blank, else its trimmed form. |
| `EditRankingItem.FindItem` | src/screens/Core/EditRankingItemScreen/index.tsx:42 | It returns the first item with the id, or none iff no item has it. |
| `EditRankingItem.EditRankingItemScreen.constructor` | src/screens/Core/EditRankingItemScreen/index.tsx:31-32 | The screen starts with an empty name and no images. |
| `EditRankingItem.EditRankingItemScreen.Prefill` | src/screens/Core/EditRankingItemScreen/index.tsx:40-53 | It does nothing if the items are not loaded or the item is missing. A non-empty name is kept. The images are replaced only when the list is empty and the item has photos. |
| `EditRankingItem.EditRankingItemScreen.SetName` | src/screens/Core/EditRankingItemScreen/index.tsx:131 | Typing sets the name only. |
| `EditRankingItem.PendingImage` | src/screens/Core/EditRankingItemScreen/index.tsx:88 | A picked image starts loading with its uri, is well-formed, and has no photo id to save. |
| `EditRankingItem.EditRankingItemScreen.AddPendingImage` | src/screens/Core/EditRankingItemScreen/index.tsx:88-89 | A pending `{uri, loading: true}` is appended, and earlier entries are unchanged. |
| `EditRankingItem.EditRankingItemScreen.UploadSucceeded` | src/screens/Core/EditRankingItemScreen/index.tsx:98-100 | On upload success the list becomes `MarkUploaded` of the old list, and the name is unchanged. |
| `EditRankingItem.EditRankingItemScreen.UploadFailed` | src/screens/Core/EditRankingItemScreen/index.tsx:101-103 | On upload failure the entries with that uri are dropped. |
| `EditRankingItem.EditRankingItemScreen.ImageLoadFailed` | src/screens/Core/EditRankingItemScreen/index.tsx:145-151 | A display error flags the entries with that uri. |
| `EditRankingItem.EditRankingItemScreen.RemoveImage` | src/screens/Core/EditRankingItemScreen/index.tsx:107-109 | `removeImage` drops the entries with that uri. Every method keeps the images well-formed. |
| `EditRankingItem.EditRankingItemScreen.HandleSave` | src/screens/Core/EditRankingItemScreen/index.tsx:111-121 | The request carries the route ids, the saved name and the saved photo ids. |
| `EditRankingItem.WithoutUriCounts` | src/screens/Core/EditRankingItemScreen/index.tsx:107-109 | Removal deletes every entry with the uri and keeps every other entry as often as before. |
| `EditRankingItem.WithoutUriConcat` | src/screens/Core/EditRankingItemScreen/index.tsx:102 | Removal distributes over concatenation, so the rest keep their order. |
| `EditRankingItem.WithoutUriIdempotent` | src/screens/Core/EditRankingItemScreen/index.tsx:108 | Removing twice equals removing once. |
| `EditRankingItem.FailedUploadRestores` | src/screens/Core/EditRankingItemScreen/index.tsx:89-102 | Picking a new image and then failing its upload restores the previous list. |
| `EditRankingItem.LoadingImageNotSaved` | src/screens/Core/EditRankingItemScreen/index.tsx:113-114 | A well-formed image that is still loading contributes no id. |
| `EditRankingItem.PendingImageNotSaved` | src/screens/Core/EditRankingItemScreen/index.tsx:112-114 | While a picked image uploads, saving sends what it sent before the pick. |
| `EditRankingItem.UploadedImageSaved` | src/screens/Core/EditRankingItemScreen/index.tsx:100-114 | After a picked image uploads with a non-empty id, the save sends that id after the earlier ones. |
| `EditRankingItem.PrefillThenSave` | src/screens/Core/EditRankingItemScreen/index.tsx:48-114 | Saving right after prefill sends back the ids of the photos that have a URI, in order. |
| `CreateItemScore.OrZero` | src/screens/Core/CreateRankingItemScoreScreen/index.tsx:104 | The fallback to 0 keeps a number and turns `undefined`/`NaN` into `0`. |
| `CreateItemScore.FirstScoreFor` | src/screens/Core/CreateRankingItemScoreScreen/index.tsx:104 | It returns the score of the first server score of that criterion, or none iff there is none. |
| `CreateItemScore.MergeEntry` | src/screens/Core/CreateRankingItemScoreScreen/index.tsx:98-105 | An entry copies the criterion's fields. Its score is the first matching server score, or 0. |
| `CreateItemScore.MergeAll` | src/screens/Core/CreateRankingItemScoreScreen/index.tsx:98-105 | There is one merged entry per criterion, in order. |
| `CreateItemScore.MergeCriteriaScores` | src/screens/Core/CreateRankingItemScoreScreen/index.tsx:98-105 | Undefined criteria give `[]`. Otherwise there is one entry per criterion, with the same order and ids. |
| `CreateItemScore.StoredScore` | src/screens/Core/CreateRankingItemScoreScreen/index.tsx:77 | The lookup gives 0 when no entry has the id. Otherwise it gives the score of the first entry with the id, or 0 when that score is absent. |
| `CreateItemScore.UpdateEntryScore` | src/screens/Core/CreateRankingItemScoreScreen/index.tsx:86-92 | Only the entries with that id take the new score. The length and every other entry are unchanged. |
| `CreateItemScore.HasScore` | src/screens/Core/CreateRankingItemScoreScreen/index.tsx:122 | An entry passes the filter exactly when its `score || 0` is non-zero. |
| `CreateItemScore.ScoreRequests` | src/screens/Core/CreateRankingItemScoreScreen/index.tsx:121-130 | There are never more requests than entries, and every request has a non-zero score and the route's item and ranking ids. |
| `CreateItemScore.CreateItemScoreScreen.constructor` | src/screens/Core/CreateRankingItemScoreScreen/index.tsx:28-30 | The screen starts with no entries, no selection and a score of 0. |
| `CreateItemScore.CreateItemScoreScreen.LoadCriteria` | src/screens/Core/CreateRankingItemScoreScreen/index.tsx:97-108 | The entries become the merge. A loaded, non-empty list selects its first criterion; otherwise the selection is kept. |
| `CreateItemScore.CreateItemScoreScreen.SelectCriteria` | src/screens/Core/CreateRankingItemScoreScreen/index.tsx:70-80 | Selecting the selected criterion deselects it and keeps the score. Selecting another selects it and loads its stored score or 0. |
| `CreateItemScore.CreateItemScoreScreen.ChangeScore` | src/screens/Core/CreateRankingItemScoreScreen/index.tsx:82-95 | The displayed score takes the parsed text or 0. With no criterion id the list is untouched; otherwise only that criterion's entries change. |
| `CreateItemScore.CreateItemScoreScreen.Save` | src/screens/Core/CreateRankingItemScoreScreen/index.tsx:120-138 | It issues the requests of the entries, then clears the selection, sets the score to 0 and empties the list. |
| `CreateItemScore.UpdateThenLookup` | src/screens/Core/CreateRankingItemScoreScreen/index.tsx:85-94 | After an update the lookup yields the new score (or 0) if the criterion has an entry, else 0. |
| `CreateItemScore.UpdateKeepsOthers` | src/screens/Core/CreateRankingItemScoreScreen/index.tsx:87-90 | An update leaves every other criterion's stored score unchanged. |
| `CreateItemScore.ScoreRequestsConcat` | src/screens/Core/CreateRankingItemScoreScreen/index.tsx:121-123 | The requests follow list order. |
| `CreateItemScore.ScoreRequestsExactly` | src/screens/Core/CreateRankingItemScoreScreen/index.tsx:122-128 | A request is issued exactly for the entries with a non-zero score, carrying that entry's criterion id and score. |
| `CreateItemScore.MergeThenSave` | src/screens/Core/CreateRankingItemScoreScreen/index.tsx:98-130 | Saving right after the merge re-sends each criterion's existing non-zero score, in criteria order. |
| `ReactQuery.RetryStep` | src/lib/react-query.ts:10-29 | Retry iff fewer than 3 failures; below that nothing is touched. From 3 on, the toast is shown iff the flag was clear, and the flag is then set. |
| `ReactQuery.ToastsBoundedByDismissals` | src/lib/react-query.ts:11-22 | Over any event sequence, the toasts shown plus the final credit are at most the dismissals plus the initial credit. |
| `ReactQuery.AtMostOneToastUntilDismissed` | src/lib/react-query.ts:12-15 | Without a dismissal at most one toast is shown, and none while the flag is set. |
| `ReactQuery.DismissalRearms` | src/lib/react-query.ts:18-20 | After a dismissal the next give-up shows the toast again. |
| `ReactQuery.QueryRetryPolicy.constructor` | src/lib/react-query.ts:5 | The flag starts clear. |
| `ReactQuery.QueryRetryPolicy.Retry` | src/lib/react-query.ts:10-29 | `retry` returns, sets the flag and logs the toast as `RetryStep` decides. |
| `ReactQuery.QueryRetryPolicy.OnToastDismissed` | src/lib/react-query.ts:18-20 | `onDismiss` clears the flag. |
| `ReactQuery.OnMutationErrorAsWritten` | src/lib/react-query.ts:35-43 | As written, it throws iff the error is an axios error with no response or with non-object data. |
| `ReactQuery.OnMutationError` | src/lib/react-query.ts:35-43 | It never throws. A toast is shown iff the error is an axios error, with the server message if present, else the generic text. |
| `ReactQuery.AsWrittenAgreesUnlessThrows` | src/lib/react-query.ts:38-42 | Wherever the code as written does not throw, it matches the corrected behaviour. |
| `ReactQuery.NetworkFailureShowsNoToast` | src/lib/react-query.ts:38 | An axios error without a response throws, where the generic toast was intended. |
| `InviteUserModal.AcceptedEmail` | src/components/InviteUserModal/index.tsx:21-26 | The email is accepted iff its trimmed form is non-empty and contains `@`, and the trimmed form is what is invited. |
| `InviteUserModal.ValidEmailAccepted` | src/components/InviteUserModal/index.tsx:21 | Every email passing `isValidEmail` is accepted unchanged. |
| `InviteUserModal.PaddedEmailAccepted` | src/components/InviteUserModal/index.tsx:26 | ` a@b ` is accepted and invites the trimmed `a@b`. |
| `InviteUserModal.AcceptedButNotValid` | src/components/InviteUserModal/index.tsx:21 | `a@b` is accepted although `isValidEmail` rejects it: the form's rule is looser than the validator. |
| `InviteUserModal.InviteModal.constructor` | src/components/InviteUserModal/index.tsx:17-18 | Email and error start empty. |
| `InviteUserModal.InviteModal.SetEmail` | src/components/InviteUserModal/index.tsx:51 | Typing sets only the email; the error persists. |
| `InviteUserModal.InviteModal.HandleInvite` | src/components/InviteUserModal/index.tsx:20-27 | A rejected email sets the error and calls nothing. Otherwise the error is cleared and `onInvite` is called once with the trimmed email. |
| `InviteUserModal.InviteModal.HandleClose` | src/components/InviteUserModal/index.tsx:29-33 | Email and error are reset, then `onClose` is called. |
| `InviteUserActionSheet.InviteSheet.constructor` | src/components/InviteUserActionSheet/index.tsx:24-25 | Email and error start empty. |
| `InviteUserActionSheet.InviteSheet.OnChangeText` | src/components/InviteUserActionSheet/index.tsx:160-163 | Typing sets the email and clears the error. |
| `InviteUserActionSheet.InviteSheet.HandleClose` | src/components/InviteUserActionSheet/index.tsx:38-42 | Email and error are reset, then `onClose` is called. |
| `InviteUserActionSheet.InviteSheet.HandleInvite` | src/components/InviteUserActionSheet/index.tsx:44-61 | A rejected email sets the error and calls nothing. Otherwise `onInvite(email.trim())` is called. On success the form is cleared and closed; on failure nothing else changes. |

## Left out

- HTTP requests, authentication headers and the axios interceptor are out of scope; the model starts from already-received response bodies. The fire-and-forget `Promise.all` of the score save and the asynchronous upload flow run as sequential steps, so interleavings are not modelled.
- `constants.bucketUrl` and `constants.bannerPlaceholder` are parameters, because `src/config/consts.ts` is not part of this model.
- `captalizeFirstLetter`, used for the group headings, is not part of this model: the version of `src/utils/general.ts` modelled here does not define it. The model proves the heading's score is defined and belongs to the group, not how its text is capitalised.
- Rendering, styles, navigation, haptics, `console.log` and the image picker are left out. The picker and upload results enter the methods as parameters.
- The `BottomSheetModal` present/dismiss effect of the action sheet is left out: it is a UI side effect with no state of its own.
- `CACHE_DURATION`, `QUALITY` and `RESIZE_MODES` of `IMAGE_CACHE_CONFIG` are left out: they are never read by the modelled code.
- `CreateItemScore.CreateItemScoreScreen.ChangeScore` does not model JavaScript number parsing. Scores are integers. The two parses take the text as parameters: `Number(score.replace(',', '.'))` for the displayed score and `Number(score)` for the entry, where `None` stands for `NaN`. Line 88 lacks the comma replacement of line 83, so the two may differ.
- Fields the server always sends as `null` (`description`, `photo`, `latitude`, `longitude`, `link`, `deletedAt`, `RankingId`) are omitted. Dates are strings.
- `RankingItemDetail.GroupScoresByCriteria` does not model two quirks of a plain JavaScript object used as a map. Keys that collide with `Object.prototype` members are one. The other is that `Object.keys` lists integer-like keys in numeric order rather than insertion order. Keys are taken to be ordinary ids.
- `EditRankingItem.EditRankingItemScreen.Prefill` reads the current image list. The effect itself reads the list captured when it last ran, so the stale-closure behaviour is not modelled.
- Strings are sequences of Unicode scalar values rather than UTF-16 code units. `\s` and `trim` use the ECMAScript whitespace and line-terminator table.

## Findings

| source | as written | input that shows it | evidently intended | confidence | as-written member | corrected member |
|---|---|---|---|---|---|---|
| src/lib/react-query.ts:38 | `'message' in error.response?.data` applies `in` to `undefined` when an axios error has no response, and to a primitive when the data is not an object. Both throw a `TypeError`, so no toast appears. | An axios network error with no `response` | The generic toast `Erro ao processar operação!` | not executed; follows from the ECMAScript `in` operator, which needs an object on its right | `ReactQuery.NetworkFailureShowsNoToast` | `ReactQuery.OnMutationError` |
