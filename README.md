# LuxSync storage/database reconciliation, in Dafny

LuxSync is a photo-gallery web application. Photos live as objects in a Backblaze B2 bucket under
keys of the form `B2 LuxSync/<gallery folder>/<user handle>/<file>`, and their metadata lives in three
Supabase tables: galleries, users and photos. This project models, and proves properties of:

- the B2 service wrapper: upload keys, public URLs, head, get and delete;
- the gallery parser, which reads gallery folders, cover images and photo records off a bucket listing;
- the two reconciliation paths that copy the bucket into the tables: the library sync and the
  admin forced sync;
- the sync-verify analysis, which reports discrepancies between the bucket and the tables;
- the admin upload, manage (move, rename, delete) and list-files endpoints, and the photo upload endpoint;
- the client pieces that drive them or show their results: the admin page's upload and manage
  tabs, the upload dropzone, the file thumbnail grid, the masonry gallery, the photo modal with
  its favourites list, and the per-user vanity page with its zip download.

Each handler is written twice:

- a pure function of the tables, the bucket and a *fault plan* (`Db.Faults`, `B2.StoreFaults`),
  which names the queries and requests that fail and the message they fail with;
- an imperative method over the mutable `Db.Database` and `B2.B2Service` objects, whose
  `ensures` ties its result and new state to that function applied to the old state.

The laws are proved about the functions: accounting, idempotence, failure isolation, round trips,
and iff-rules for success. Client components are classes whose fields are the React state.

Modules, in dependency order:

- `Wrappers`, `Strings` (JavaScript string operations), `Records` (the table rows and listed objects);
- `B2` (`src/utils/b2/service.ts`), `Db` (the tables and the Supabase `.single()` semantics), `Keys`;
- `SyncVerify`, `SyncVerifyLaws`, `GalleryParser`, `GallerySync`, `GallerySyncLaws`, `UploadRoute`,
  `UploadRouteLaws`, `ManageRoute`, `ManageRouteLaws`, `ListFiles`, `PhotosUpload`;
- `AdminPage`, `AdminPageLaws`, `PhotoModal`, `Masonry`, `ThumbnailGrid`, `Dropzone`, `UserVanity`.

Where the code's stated intent and its behaviour differ, the model follows the behaviour:

- The code has two folder-name rules. The parser and the library sync match
  `^(\d{4}-\d{2}-\d{2})\s+(.+)$` and trim group 2 (`GalleryParser.ParseFolder`, `GallerySync.NewGallery`).
  The forced sync and the admin upload replace every `_`/`-` of the whole name and read the date
  with `^(\d{4}[-_]\d{2}[-_]\d{2})` (`SyncVerify.SyncTitle`, `SyncVerify.SyncEventDate`).
- The library sync's loop is commented "Add photos to database if they don't exist"
  (src/utils/sync/gallery-sync.ts:46), but it inserts every photo again on each run
  (`GallerySyncLaws.RerunInsertsAgain`). The forced sync does check by key, and a second run
  changes nothing (`SyncVerifyLaws.ForcedSyncIdempotent`).
- The thumbnail grid's image rule leaves out `tiff`, although the parser accepts it
  (`ThumbnailGrid.TiffIsFile`).
- The admin upload's branch commented "Create new gallery if it doesn't exist"
  (src/app/api/admin/upload/route.ts:105) is never reached: Findings row (iv) below.

## Model

| member | source | states |
|---|---|---|
| Strings.JoinSplit | src/app/api/admin/manage/route.ts:63 | joining the parts of `split(sep)` with `sep` gives back the string |
| Strings.SplitJoin | src/app/api/admin/manage/route.ts:63 | splitting a join of separator-free parts gives back exactly those parts |
| Strings.LastSegmentIsSuffix | src/app/api/admin/list-files/route.ts:44 | `split(sep).pop()` is the text after the last separator, the whole string when there is none |
| Strings.LastIndexOf | src/utils/b2/gallery-parser.ts:174 | `lastIndexOf` is -1 exactly when the character is absent, otherwise the index of its last occurrence |
| Strings.TrimSkipsLeadingSpace | src/utils/b2/gallery-parser.ts:51 | leading white space does not change what `trim()` returns |
| Strings.ReplaceChars | src/app/api/admin/sync-verify/route.ts:196 | `replace(/[_-]/g, ' ')` keeps the length and swaps exactly the characters of the class |
| Strings.ReplaceSpaceRunsRemovesSpace | src/app/UserVanityClient.tsx:131 | `replace(/\s+/g, rep)` with a space-free `rep` leaves no white space |
| Strings.ReplaceSpaceRunsSpaceFree | src/app/UserVanityClient.tsx:131 | text with no white space is left unchanged by `replace(/\s+/g, rep)` |
| Strings.DecimalRoundTrip | src/utils/b2/gallery-parser.ts:111-112 | `parseInt` of a rendered natural number gives the number back |
| Strings.ParseInt | src/utils/b2/gallery-parser.ts:111-112 | `parseInt` of a non-empty digit string is its decimal value |
| B2.BasePath | src/utils/b2/service.ts:11 | `B2_BASE_PATH \|\| 'B2 LuxSync'` is never empty |
| B2.ContentTypeOr | src/utils/b2/service.ts:47 | the given content type when truthy, else `application/octet-stream` |
| B2.PublicUrl | src/utils/b2/service.ts:90-106 | an error exactly when neither B2_PUBLIC_URL nor B2_ENDPOINT is set; otherwise `<origin>/file/<bucket>/<key>` with B2_PUBLIC_URL preferred |
| B2.PublicUrlInjective | src/utils/b2/service.ts:95 | two keys with the same public URL are the same key |
| B2.RawUrlIsPublicUrl | src/utils/b2/gallery-parser.ts:129 | with B2_PUBLIC_URL set, the parser's hand-built URL equals `getPublicUrl` |
| B2.UploadKeyEndsWithName | src/utils/b2/service.ts:40-41 | a '/'-free file name is the last segment of its upload key, and the key starts with the base path and '/' |
| B2.Head | src/utils/b2/service.ts:113-118 | a head request succeeds exactly for a stored key outside the head faults and reports the body length; otherwise `NotFound` unless faulted |
| B2.InfoOf | src/utils/b2/service.ts:120-124 | a missing length reads as 0, a missing type as octet-stream, a missing date as the current time |
| B2.Upload | src/utils/b2/service.ts:33-68 | the put stores the body under the upload key unless it fails; the upload succeeds exactly when the put, the URL and the head succeed, and then returns that key, its URL and the body's size |
| B2.Download | src/utils/b2/service.ts:134-161 | succeeds exactly for a stored key outside the get faults, with the stored body |
| B2.Delete | src/utils/b2/service.ts:166-178 | on success the key is gone and every other key is untouched; a failure changes nothing |
| B2.B2Service.UploadFile | src/utils/b2/service.ts:33-68 | the bucket and result are those of `Upload` on the old bucket |
| B2.B2Service.GetPublicUrl | src/utils/b2/service.ts:90-106 | returns `PublicUrl` for the key |
| B2.B2Service.GetFileInfo | src/utils/b2/service.ts:111-129 | returns the head's info; on success the size is the stored body's length |
| B2.B2Service.DownloadFile | src/utils/b2/service.ts:134-161 | returns `Download` for the key |
| B2.B2Service.DeleteFile | src/utils/b2/service.ts:166-178 | the bucket and result are those of `Delete` on the old bucket |
| B2.B2Service.FileExists | src/utils/b2/service.ts:183-193 | true iff the key is stored and its head does not fail, false iff it is absent and the head does not fail; any other error propagates, and it is never `NotFound` |
| Db.Single | src/app/api/admin/upload/route.ts:92-96 | `.single()` finds the row exactly when the query succeeds with one match; no match is `NotFound`, which the client reports as an error |
| Db.AddGallery | src/app/api/admin/sync-verify/route.ts:200-208 | the insert statement as modelled: a failing insert leaves the tables as they were; otherwise one gallery row with the next minted id and a null cover is appended |
| Db.AddUser | src/app/api/admin/sync-verify/route.ts:254-261 | the insert statement as modelled: a failing insert leaves the tables as they were; otherwise one user row with the next minted id, named after the handle, is appended |
| Db.AddPhoto | src/app/api/admin/sync-verify/route.ts:287-296 | the insert statement as modelled: a failing insert leaves the tables as they were; otherwise one photo row with the given columns is appended |
| Db.MintIsFresh | src/app/api/admin/sync-verify/route.ts:200-208 | while no row holds an unminted id, the next minted id is no row's id in any table |
| Db.AddGalleryFresh | src/app/api/admin/sync-verify/route.ts:200-208 | a created gallery's id is no existing row's id, and no row ends up with an unminted id |
| Db.AddUserFresh | src/app/api/admin/sync-verify/route.ts:254-261 | a created user's id is no existing row's id, and no row ends up with an unminted id |
| Db.AddPhotoFresh | src/app/api/admin/sync-verify/route.ts:287-296 | a created photo's id is no existing row's id, and no row ends up with an unminted id |
| Db.UpdateAndDeleteKeepIdsBelow | src/app/api/admin/manage/route.ts:66-102 | updating and deleting photo rows never brings in an unminted id |
| Db.UpdatePhotoKey | src/app/api/admin/manage/route.ts:66-72 | on success every row with the old key takes the new key and URL and the others are untouched; on failure nothing changes |
| Db.DeletePhotoKey | src/app/api/admin/manage/route.ts:99-102 | on success exactly the rows with the key are removed; on failure nothing changes |
| Db.PhotosOfGallery | src/app/api/photos/upload/route.ts:98-101 | the select fails only when faulted; otherwise it returns the rows of that gallery in table order |
| Db.MatchingEmpty | src/app/api/admin/sync-verify/route.ts:186-190 | a lookup by key matches nothing exactly when no row carries that key |
| Keys.DistinctSegment1 | src/app/api/admin/sync-verify/route.ts:82-87 | `[...new Set(...)]` of segment 1: no duplicates, and exactly the segments of the admitted names |
| Keys.KeyNames | src/utils/b2/gallery-parser.ts:28-29 | the names of the listed objects that have a key, and only those |
| SyncVerify.Entries | src/app/api/admin/sync-verify/route.ts:159-163 | the listing is kept without the entries whose name is empty |
| SyncVerify.GalleryObjects | src/app/api/admin/sync-verify/route.ts:226-229 | a key is a gallery object exactly when it is listed, under `B2 LuxSync/<g>/` and not a `.bzEmpty` marker |
| SyncVerify.Missing | src/app/api/admin/sync-verify/route.ts:100 | exactly the folders not among the database's folder names |
| SyncVerify.Orphans | src/app/api/admin/sync-verify/route.ts:119 | the count is 0 exactly when every photo's gallery id is a known gallery id |
| SyncVerify.FindOrCreateUser | src/app/api/admin/sync-verify/route.ts:242-270 | the tables and user id after the find-or-create are those of `EnsureUser` |
| SyncVerify.ProcessObject | src/app/api/admin/sync-verify/route.ts:235-309 | the tables and counters after one object are those of `SyncObject` |
| SyncVerify.ProcessObjects | src/app/api/admin/sync-verify/route.ts:234-310 | the loop over a gallery's objects ends in the state `SyncObjects` gives |
| SyncVerify.FindOrCreateGallery | src/app/api/admin/sync-verify/route.ts:186-221 | the tables and gallery id after the find-or-create are those of `EnsureGallery` |
| SyncVerify.ProcessGallery | src/app/api/admin/sync-verify/route.ts:181-315 | one gallery of the loop ends in the state `SyncGallery` gives |
| SyncVerify.Post | src/app/api/admin/sync-verify/route.ts:151-338 | the tables and response of the forced sync are those of `ForcedSync` on the old tables |
| SyncVerifyLaws.Segment1LacksSlash | src/app/api/admin/sync-verify/route.ts:171 | segment 1 of a key never contains '/' |
| SyncVerifyLaws.GalleryPathsAreFolderNames | src/app/api/admin/sync-verify/route.ts:168-172 | every gallery path walked is non-empty and free of '/' |
| SyncVerifyLaws.GalleryObjectShape | src/app/api/admin/sync-verify/route.ts:237-239 | a key under `B2 LuxSync/<g>/` has at least three segments, segment 1 is `g`, and segment 2 is the text after the prefix up to the next '/' |
| SyncVerifyLaws.HandleOfDirectFile | src/app/api/admin/sync-verify/route.ts:238-239 | for a file directly in the gallery folder, the "user handle" is the file name itself |
| SyncVerifyLaws.PhotoErrorsAreNotGalleryErrors | src/app/api/admin/sync-verify/route.ts:212 | only the "Failed to create gallery" message counts as a gallery failure |
| SyncVerifyLaws.GalleryErrorsAppend | src/app/api/admin/sync-verify/route.ts:212 | appending a message adds one to the gallery-failure count exactly when it is a gallery failure |
| SyncVerifyLaws.ObjectAccounting | src/app/api/admin/sync-verify/route.ts:235-309 | one object only appends rows, never a gallery, counts exactly the photo rows it adds, and adds no gallery failure |
| SyncVerifyLaws.EnsureUserKeepsRows | src/app/api/admin/sync-verify/route.ts:242-270 | the user find-or-create only appends to the users table |
| SyncVerifyLaws.ObjectsAccounting | src/app/api/admin/sync-verify/route.ts:234-310 | the same accounting over all of a gallery's objects |
| SyncVerifyLaws.GalleryAccounting | src/app/api/admin/sync-verify/route.ts:181-315 | one gallery is counted as processed or reported once as a failed creation, and photos are counted as rows are added |
| SyncVerifyLaws.GalleriesAccounting | src/app/api/admin/sync-verify/route.ts:181-315 | over all paths: processed galleries plus gallery failures equals the number of paths |
| SyncVerifyLaws.ForcedSyncAccounting | src/app/api/admin/sync-verify/route.ts:151-325 | the forced sync succeeds, never updates or deletes a row, reports as photosProcessed exactly the rows added, and counts each gallery path as processed or as one creation failure |
| SyncVerifyLaws.LookupErrorInsertsGallery | src/app/api/admin/sync-verify/route.ts:194-217 | any lookup error, not only a missing row, inserts a gallery row with the sync's title and date even beside an existing one |
| SyncVerifyLaws.FailedGalleryCreation | src/app/api/admin/sync-verify/route.ts:210-214 | a failed creation appends exactly one error and skips the gallery's objects |
| SyncVerifyLaws.FailedUserStillInsertsPhoto | src/app/api/admin/sync-verify/route.ts:263-296 | a failed user creation is not an error: the photo row is still inserted, with no user tag |
| SyncVerifyLaws.InsertedRowShape | src/app/api/admin/sync-verify/route.ts:285-296 | an inserted row has the gallery id, the found or created user's id (the found user's id when the user exists), the key, its public URL and null dimensions, and is counted |
| SyncVerifyLaws.ObjectNoOp | src/app/api/admin/sync-verify/route.ts:273-282 | an object whose row and user already exist is skipped without a change |
| SyncVerifyLaws.ObjectsNoOp | src/app/api/admin/sync-verify/route.ts:234-310 | a gallery of already-settled objects changes nothing |
| SyncVerifyLaws.SyncGalleryUnfolds | src/app/api/admin/sync-verify/route.ts:186-229 | one gallery is its find-or-create followed by the failure message or by its objects |
| SyncVerifyLaws.GalleryNoOp | src/app/api/admin/sync-verify/route.ts:186-223 | a settled gallery is found, not created, and only its counter moves |
| SyncVerifyLaws.GalleriesNoOp | src/app/api/admin/sync-verify/route.ts:181-315 | over settled galleries a run changes no table and counts every gallery |
| SyncVerifyLaws.EnsureUserSettles | src/app/api/admin/sync-verify/route.ts:242-270 | without faults the handle ends with exactly one user row, and no key becomes duplicated |
| SyncVerifyLaws.ObjectSettles | src/app/api/admin/sync-verify/route.ts:235-309 | without faults an object ends with its row and its user, each once |
| SyncVerifyLaws.ObjectStaysSettled | src/app/api/admin/sync-verify/route.ts:234-310 | a settled object stays settled as rows are appended without duplicating keys |
| SyncVerifyLaws.ObjectsSettle | src/app/api/admin/sync-verify/route.ts:234-310 | without faults every object of a gallery ends settled |
| SyncVerifyLaws.GalleryStaysSettled | src/app/api/admin/sync-verify/route.ts:181-315 | a settled gallery stays settled as later galleries append rows |
| SyncVerifyLaws.EnsureGallerySettles | src/app/api/admin/sync-verify/route.ts:186-221 | without faults the folder ends with exactly one gallery row |
| SyncVerifyLaws.GalleryObjectsHaveHandles | src/app/api/admin/sync-verify/route.ts:237-239 | every object of a '/'-free gallery has a segment 2 |
| SyncVerifyLaws.GallerySettles | src/app/api/admin/sync-verify/route.ts:181-315 | without faults a gallery ends with its row and every object's row, each once |
| SyncVerifyLaws.GalleriesSettle | src/app/api/admin/sync-verify/route.ts:181-315 | without faults every gallery path ends settled |
| SyncVerifyLaws.ForcedSyncIdempotent | src/app/api/admin/sync-verify/route.ts:272-282 | after a fault-free run, a second run over the same listing changes no table, processes no photo and reports no error, whatever its insert faults |
| SyncVerifyLaws.ObjectStaysAccounted | src/app/api/admin/sync-verify/route.ts:234-310 | an accounted object stays accounted as the run goes on |
| SyncVerifyLaws.ObjectIsAccounted | src/app/api/admin/sync-verify/route.ts:235-309 | whatever fails, an object ends with a row or an error naming it |
| SyncVerifyLaws.ObjectsAreAccounted | src/app/api/admin/sync-verify/route.ts:234-310 | whatever fails, every object of a gallery ends with a row or an error naming it |
| SyncVerifyLaws.GalleryStaysAccounted | src/app/api/admin/sync-verify/route.ts:181-315 | an accounted gallery stays accounted as the run goes on |
| SyncVerifyLaws.EnsureGalleryOutcome | src/app/api/admin/sync-verify/route.ts:186-221 | the find-or-create only appends rows; on success the folder has a row, and on failure the error is the database's message |
| SyncVerifyLaws.GalleryIsAccounted | src/app/api/admin/sync-verify/route.ts:181-315 | a gallery's creation failure is reported, or its row exists and each of its objects is accounted for |
| SyncVerifyLaws.GalleryObjectsAccounted | src/app/api/admin/sync-verify/route.ts:223-310 | once the gallery row exists, every one of its objects is accounted for |
| SyncVerifyLaws.GalleriesAreAccounted | src/app/api/admin/sync-verify/route.ts:181-315 | every gallery path is accounted for at the end of the loop |
| SyncVerifyLaws.ForcedSyncAccountsForEveryObject | src/app/api/admin/sync-verify/route.ts:151-325 | per-item failure isolation: every gallery has its failure reported or its row, and every one of its objects has a row or an error naming it |
| SyncVerifyLaws.EmptyGalleriesReported | src/app/api/admin/sync-verify/route.ts:93-94 | an empty galleries table is the first discrepancy, and no missing-galleries message follows |
| SyncVerifyLaws.DiscrepancyForms | src/app/api/admin/sync-verify/route.ts:92-123 | every discrepancy has one of five forms |
| SyncVerifyLaws.FoldersButEmptyNeverReported | src/app/api/admin/sync-verify/route.ts:95-96 | the "B2 has gallery folders but database is empty" branch is never taken |
| SyncVerifyLaws.MissingFoldersReported | src/app/api/admin/sync-verify/route.ts:97-104 | with galleries present, a missing-galleries message appears exactly when some listed folder is no gallery's folder_name, and it lists exactly those folders |
| SyncVerifyLaws.MissingMembers | src/app/api/admin/sync-verify/route.ts:99-100 | a folder is missing exactly when no gallery row has it as folder_name |
| SyncVerifyLaws.MissingMessage | src/app/api/admin/sync-verify/route.ts:101-103 | the missing-galleries message is pushed exactly when the missing list is non-empty |
| SyncVerifyLaws.OrphansReported | src/app/api/admin/sync-verify/route.ts:117-123 | the orphan message appears exactly when both tables are non-empty and some photo's gallery id is unknown |
| SyncVerifyLaws.OrphanMessage | src/app/api/admin/sync-verify/route.ts:117-123 | the same rule stated over the analysis itself |
| SyncVerifyLaws.SampleIsFirstTen | src/app/api/admin/sync-verify/route.ts:81-134 | the sample is the first ten kept entries, or all of them, and the object count is the number kept |
| GalleryParser.IsImageFileBySplit | src/utils/b2/gallery-parser.ts:172-176 | a name is an image exactly when it has a '.' and '.' plus its lower-cased last '.'-segment is one of the seven extensions |
| GalleryParser.NoDotIsNoImage | src/utils/b2/gallery-parser.ts:174-175 | a name without '.' is never an image |
| GalleryParser.ListedExtensionIsImage | src/utils/b2/gallery-parser.ts:173-175 | any stem followed by a listed extension is an image |
| GalleryParser.ImageRuleIgnoresCase | src/utils/b2/gallery-parser.ts:174 | lower-casing a name does not change the verdict |
| GalleryParser.ListedExtensionsShape | src/utils/b2/gallery-parser.ts:173 | every listed extension is '.' followed by lower-case text with no '.' |
| GalleryParser.SpaceRun | src/utils/b2/gallery-parser.ts:46 | the length of the leading white-space run |
| GalleryParser.GreedyTail | src/utils/b2/gallery-parser.ts:46 | `\s+(.+)$` fails exactly when no split leaves a one-line remainder; a match is such a remainder |
| GalleryParser.ParseDatedFolder | src/utils/b2/gallery-parser.ts:46-55 | a date, white space and a one-line title parse back as that date and the trimmed title, with the folder as id |
| GalleryParser.DatedNameShape | src/utils/b2/gallery-parser.ts:46 | a match starts with a date and white space, and group 2 ends the name |
| GalleryParser.CollectFolders | src/utils/b2/gallery-parser.ts:26-41 | the folder set built by the loop is `ParserFolders` |
| GalleryParser.ParserFoldersExact | src/utils/b2/gallery-parser.ts:28-41 | the folders are exactly the non-empty segment 1 of keys with at least three segments, each once |
| GalleryParser.CoverIsFirstCandidate | src/utils/b2/gallery-parser.ts:156-167 | the cover is missing exactly when no object is a candidate, and otherwise is the URL of the first candidate |
| GalleryParser.CoverImage | src/utils/b2/gallery-parser.ts:156-167 | the early-return loop returns `CoverOf` |
| GalleryParser.GalleryFolders | src/utils/b2/gallery-parser.ts:44-66 | one parsed gallery per folder, in folder order |
| GalleryParser.GetGalleriesFromB2 | src/utils/b2/gallery-parser.ts:15-73 | the result is `GalleriesFromB2` of the listing |
| GalleryParser.GalleriesAreFolders | src/utils/b2/gallery-parser.ts:44-66 | every parsed gallery uses its folder name as id and folder, in the parser's folder order |
| GalleryParser.RunThenReads | src/utils/b2/gallery-parser.ts:103 | a digit run followed by the expected character is read whole |
| GalleryParser.HintAtReads | src/utils/b2/gallery-parser.ts:103 | `_<a>x<b>.` at an index is matched with groups `a` and `b` |
| GalleryParser.DimensionHintRoundTrip | src/utils/b2/gallery-parser.ts:103-112 | a name carrying `_<W>x<H>.` after an underscore-free stem yields W×H, whatever the metadata says |
| GalleryParser.HintSkipsStem | src/utils/b2/gallery-parser.ts:103 | the leftmost-match search skips a stretch with no underscore |
| GalleryParser.NoUnderscoreNoHint | src/utils/b2/gallery-parser.ts:103 | no match starts at an index that holds no underscore |
| GalleryParser.MapKeptMembers | src/utils/b2/gallery-parser.ts:91-144 | the loop's results are exactly those of the kept objects, at most one per object |
| GalleryParser.PhotosOfMembers | src/utils/b2/gallery-parser.ts:91-144 | the photos are exactly the records of the kept objects |
| GalleryParser.PhotoDimensions | src/utils/b2/gallery-parser.ts:103-127 | the width and height settled on are `Dimensions` of the file name and metadata |
| GalleryParser.MakePhoto | src/utils/b2/gallery-parser.ts:129-140 | the record pushed is `PhotoFor` of the object |
| GalleryParser.GetPhotosForGallery | src/utils/b2/gallery-parser.ts:78-151 | the result is `PhotosForGallery` of the listing |
| GalleryParser.PhotoFields | src/utils/b2/gallery-parser.ts:131-137 | each photo's id and key are the object key, gallery and user are segments 1 and 2, and both URLs are the raw public URL |
| GalleryParser.PhotoSize | src/utils/b2/gallery-parser.ts:98-127 | a photo's size is `Dimensions` of the key's last segment and the object's metadata |
| GalleryParser.DefaultDimensions | src/utils/b2/gallery-parser.ts:106-107 | with no hint and no metadata a photo is 600×900 |
| GallerySync.CreatePhotos | src/utils/sync/gallery-sync.ts:46-62 | the tables after the loop are `AddPhotos` of the old tables |
| GallerySync.FindOrCreateGallery | src/utils/sync/gallery-sync.ts:18-40 | the tables and gallery id are `DbGallery` of the old tables |
| GallerySync.SyncOneGallery | src/utils/sync/gallery-sync.ts:16-65 | one gallery ends in the tables `SyncGallery` gives |
| GallerySync.SyncGalleriesToDatabase | src/utils/sync/gallery-sync.ts:9-73 | the tables and rethrown error are `SyncToDatabase` of the old tables |
| GallerySyncLaws.NewGalleryAgreesWithParser | src/utils/sync/gallery-sync.ts:29-31 | the sync's title and date rule gives what the parser's folder parse gives |
| GallerySyncLaws.NewGalleryOfDatedFolder | src/utils/sync/gallery-sync.ts:29-31 | a date, white space and a one-line title give the trimmed title and the date |
| GallerySyncLaws.UnfaultedAll | src/utils/sync/gallery-sync.ts:46-62 | with no failing insert every photo is kept |
| GallerySyncLaws.AddPhotosAppends | src/utils/sync/gallery-sync.ts:46-62 | the loop appends one row per photo whose insert does not fail, in order, and changes nothing else |
| GallerySyncLaws.NewRowFields | src/utils/sync/gallery-sync.ts:51-57 | each inserted row carries the database gallery id and copies key, URL and size, with no user tag |
| GallerySyncLaws.DbGalleryOutcome | src/utils/sync/gallery-sync.ts:19-40 | a gallery row is created only when the lookup finds no row or fails and the insert succeeds |
| GallerySyncLaws.SyncGalleryIsAdditive | src/utils/sync/gallery-sync.ts:16-65 | a gallery never touches users, never rewrites a row and adds at most one gallery row |
| GallerySyncLaws.SyncGalleryInsertsAll | src/utils/sync/gallery-sync.ts:43-62 | without insert failures a gallery inserts every photo listed for it |
| GallerySyncLaws.SyncGalleriesIsAdditive | src/utils/sync/gallery-sync.ts:16-66 | writes are additive only over the whole run |
| GallerySyncLaws.SyncGalleriesInsertsAll | src/utils/sync/gallery-sync.ts:16-66 | without insert failures a run inserts one row for every listed photo, whatever the tables already hold |
| GallerySyncLaws.ListingFailureWritesNothing | src/utils/sync/gallery-sync.ts:69-71 | a failed gallery listing is rethrown and nothing is written |
| GallerySyncLaws.RerunInsertsAgain | src/utils/sync/gallery-sync.ts:48-57 | not idempotent: a second run inserts every listed photo again |
| UploadRoute.FindOrCreateGallery | src/app/api/admin/upload/route.ts:88-129 | the tables, gallery and errors are `GalleryStep` of the old tables |
| UploadRoute.FindOrCreateUser | src/app/api/admin/upload/route.ts:132-167 | the tables, user and errors are `UserStep` of the old tables |
| UploadRoute.ProcessFile | src/app/api/admin/upload/route.ts:53-202 | one file ends in the state `UploadOne` gives |
| UploadRoute.HandlePost | src/app/api/admin/upload/route.ts:8-219 | the tables, bucket and response are `Post` of the old ones |
| UploadRouteLaws.HashedNameKeepsExtension | src/app/api/admin/upload/route.ts:72-73 | the stored name is the UUID, '.', and the lower-cased text after the last '.' |
| UploadRouteLaws.HashedNameWithoutDot | src/app/api/admin/upload/route.ts:72-73 | a name without '.' is used whole, lower-cased, as the extension |
| UploadRouteLaws.FolderNames | src/app/api/admin/upload/route.ts:88-132 | the gallery is the folder path's first segment; the user is its second, or "unknown" when absent or empty |
| UploadRouteLaws.NoDoubleSlashJoin | src/app/api/admin/upload/route.ts:76 | joining two strings without "//" and without a '/' at the seam gives none |
| UploadRouteLaws.ReplaceWithoutDoubleSlash | src/app/api/admin/upload/route.ts:76 | without "//" there is nothing to collapse |
| UploadRouteLaws.ReplaceFirstDoubleSlash | src/app/api/admin/upload/route.ts:76 | the first "//" after a clean prefix is the one collapsed |
| UploadRouteLaws.B2PathIsUploadKey | src/app/api/admin/upload/route.ts:76-79 | with the default base, for an empty or clean folder the row's key equals the stored key |
| UploadRouteLaws.TrailingSlashMissesStoredKey | src/app/api/admin/upload/route.ts:76-79 | with a trailing '/' the row's key has one '/' where the stored key has "//", so they differ |
| UploadRouteLaws.GalleryStepOutcome | src/app/api/admin/upload/route.ts:92-129 | the gallery step touches only galleries, records at most one error, returns a row with that folder name, and writes only when a missing row is read as no row |
| UploadRouteLaws.UserStepOutcome | src/app/api/admin/upload/route.ts:135-167 | the user step touches only users, records at most one error, returns a row with that handle, and writes only when a missing row is read as no row |
| UploadRouteLaws.PhotoStepOutcome | src/app/api/admin/upload/route.ts:170-196 | no gallery gives "Could not find or create gallery" and no write; otherwise it throws exactly when the URL is unconfigured, and inserts one row with the gallery id, user id, key, URL and size unless the insert fails |
| UploadRouteLaws.UploadOneSteps | src/app/api/admin/upload/route.ts:53-202 | a throwing upload records one error and changes no table or count; otherwise the file is the gallery, user and photo steps in order, and is counted |
| UploadRouteLaws.Uploaded | src/app/api/admin/upload/route.ts:79 | the count of files whose upload does not throw is at most the number of files |
| UploadRouteLaws.FileAccounting | src/app/api/admin/upload/route.ts:53-202 | errors are only appended, rows only added, no object removed; a throwing file records exactly one error and is not counted |
| UploadRouteLaws.UploadAllAccounting | src/app/api/admin/upload/route.ts:53-203 | processedFiles is the number of files that did not throw, and each that threw left an error |
| UploadRouteLaws.RejectedRequestsWriteNothing | src/app/api/admin/upload/route.ts:13-45 | a missing password (500), an unreadable form (413) or no files (400) change nothing |
| UploadRouteLaws.PostReportsEveryFile | src/app/api/admin/upload/route.ts:205-211 | an accepted request succeeds, reports the non-throwing files as processed, and leaves out `errors` exactly when none was recorded |
| UploadRouteLaws.PhotoRowShape | src/app/api/admin/upload/route.ts:170-185 | at most one row per file, only into a gallery named by the folder's first segment, with that gallery's id, the row key, its URL, the file's size, and a user tag only for the folder's user |
| UploadRouteLaws.AsWrittenRowMissesObject | src/app/api/admin/upload/route.ts:76-79 | as written, a folder path ending in '/' gives a row whose key names no stored object |
| UploadRouteLaws.StoredKeyRowNamesObject | src/utils/b2/service.ts:40-41 | writing the key the upload stored under, every new row names a stored object |
| UploadRouteLaws.AsWrittenCreatesNothing | src/app/api/admin/upload/route.ts:98-167 | as written, no gallery and no user is ever created |
| UploadRouteLaws.AsWrittenMissingGallery | src/app/api/admin/upload/route.ts:98-196 | as written, a folder without a gallery row records the lookup error and "Could not find or create gallery", and inserts no photo |
| UploadRouteLaws.AbsentGalleryIsCreated | src/app/api/admin/upload/route.ts:104-129 | reading "no row" as no row, a missing gallery is created with the forced sync's title and date, and the photo goes into it |
| ManageRoute.MoveFile | src/app/api/admin/manage/route.ts:52-92 | the tables, bucket and response of a move are `Move` of the old ones |
| ManageRoute.RemoveFile | src/app/api/admin/manage/route.ts:94-119 | the tables, bucket and response of a delete are `Remove` of the old ones |
| ManageRoute.HandleManage | src/app/api/admin/manage/route.ts:6-135 | the tables, bucket and response are `Manage` of the old ones |
| ManageRouteLaws.ValidationWritesNothing | src/app/api/admin/manage/route.ts:9-124 | every rejected request and every unknown action leaves the tables and the bucket unchanged, with the handler's status and message |
| ManageRouteLaws.TargetParts | src/app/api/admin/manage/route.ts:60-63 | the target is its folder, '/', and its last segment; a '/'-free target has an empty folder |
| ManageRouteLaws.MovedKeyShape | src/app/api/admin/manage/route.ts:63 | the copy's key is the base path plus the target, longer than and never equal to the target |
| ManageRouteLaws.MoveSucceedsIff | src/app/api/admin/manage/route.ts:52-92 | a move succeeds exactly when the download, upload, row update and delete succeed; it then repoints exactly the source's rows, and the bucket holds the copy and not the source |
| ManageRouteLaws.MoveDeletesOnlyAfterUpdate | src/app/api/admin/manage/route.ts:74-83 | a failed update leaves both the source and the copy in the bucket |
| ManageRouteLaws.MoveAndRenameAgree | src/app/api/admin/manage/route.ts:38-85 | move and rename make the same writes and status; only the verb differs |
| ManageRouteLaws.MovedMessages | src/app/api/admin/manage/route.ts:85 | the success messages name the verb, the source and the target |
| ManageRouteLaws.DeleteOrder | src/app/api/admin/manage/route.ts:94-112 | the object goes first: if that fails nothing changes, if the rows then fail the object is already gone, else exactly the key's rows are removed |
| ManageRouteLaws.AsWrittenMoveRowsMissObject | src/app/api/admin/manage/route.ts:63-72 | as written, after a move the rows name the target path while the copy sits under the base path plus the target |
| ManageRouteLaws.CorrectedMoveRowsNameObject | src/app/api/admin/manage/route.ts:63-72 | with the rows taking the copy's key and URL, every repointed row names the copy |
| ManageRouteLaws.AsWrittenSelfMoveLosesFile | src/app/api/admin/manage/route.ts:63-83 | as written, a move whose copy lands on the source's key ends with the file deleted |
| ManageRouteLaws.CorrectedSelfMoveKeepsFile | src/app/api/admin/manage/route.ts:63-83 | skipping the delete in that case keeps the object and its body |
| ListFiles.BuildMapping | src/app/api/admin/list-files/route.ts:41-52 | the mapping built by `forEach` is `Mapping` of the rows |
| ListFiles.MappingKeys | src/app/api/admin/list-files/route.ts:43-51 | a basename is in the mapping exactly when some row has it |
| ListFiles.MappingLastWins | src/app/api/admin/list-files/route.ts:45 | a basename maps to the last row that has it |
| ListFiles.OldestRowWins | src/app/api/admin/list-files/route.ts:30-45 | with rows newest first, a shared basename maps to the oldest row that has it |
| ListFiles.LastWith | src/app/api/admin/list-files/route.ts:45 | the last row with a given basename |
| ListFiles.FileNameFallback | src/app/api/admin/list-files/route.ts:56 | the file name is the text after the last '/'; a key ending in '/' is used whole, and a missing key gives "" |
| ListFiles.EntriesFollowListing | src/app/api/admin/list-files/route.ts:55-67 | one entry per listed object, in order, with that object's key, size and timestamp |
| ListFiles.EntryMatch | src/app/api/admin/list-files/route.ts:57-62 | an entry is matched exactly when some row has its file name as basename; unmatched entries have an empty URL |
| ListFiles.JoinIgnoresFolder | src/app/api/admin/list-files/route.ts:44-57 | an object is matched with a row under another folder, and the entry then reports that row's path |
| ListFiles.HandleList | src/app/api/admin/list-files/route.ts:5-80 | the response is `List` of the inputs |
| ListFiles.ListOutcome | src/app/api/admin/list-files/route.ts:8-72 | missing password, failed listing and failed query give their 500s; success happens exactly otherwise and has one entry per listed object |
| PhotosUpload.HandlePost | src/app/api/photos/upload/route.ts:7-79 | the tables, bucket and response are `Post` of the old ones |
| PhotosUpload.HandleGet | src/app/api/photos/upload/route.ts:82-119 | the response is `Get` of the tables |
| PhotosUpload.PostValidation | src/app/api/photos/upload/route.ts:11-26 | an unreadable body is a 500 and a missing image, name or gallery id a 400, both before anything is stored |
| PhotosUpload.PostStoresUnderGallery | src/app/api/photos/upload/route.ts:18-34 | a valid body stores the image under `<base>/galleries/<id>/<name>` unless the put fails, typed image/jpeg when the type is absent |
| PhotosUpload.PostSucceedsIff | src/app/api/photos/upload/route.ts:29-71 | the POST succeeds exactly when the store, URL, size read-back, probe and insert succeed; the one new row copies the stored key and URL, the gallery id, the truthy user id and the dimensions |
| PhotosUpload.FailureAfterStoreLeavesObject | src/app/api/photos/upload/route.ts:41-65 | a failure after the store leaves the object with no row naming it |
| PhotosUpload.ReuploadDuplicatesRow | src/app/api/photos/upload/route.ts:46-57 | with no existence check, re-uploading a stored name adds a second row with the same key |
| PhotosUpload.GetFilters | src/app/api/photos/upload/route.ts:88-111 | GET needs a gallery id; with one it answers 200 exactly when the select does not fail, with exactly the rows of that gallery in table order |
| AdminPage.FirstOversize | src/app/admin/page.tsx:152-156 | the first file over 25 MiB, or none when every file fits |
| AdminPage.FirstOversizeUnique | src/app/admin/page.tsx:152-156 | the first oversize index is the only index with that property |
| AdminPage.UploadTab.FileChange | src/app/admin/page.tsx:137-161 | the selection is replaced only when both limits hold; otherwise the limit's message is shown |
| AdminPage.UploadTab.Upload | src/app/admin/page.tsx:163-208 | with no selection only the prompt is shown; otherwise it posts the files and folder and shows `UploadSettled` of the outcome |
| AdminPage.ManageTab.Act | src/app/admin/page.tsx:264-302 | a missing source or target is refused with its message, otherwise it sends `BodyFor` the fields and shows `ManageSettled` |
| AdminPageLaws.VerdictIff | src/app/admin/page.tsx:140-159 | a selection is accepted exactly when the total is within 50 MiB and every file within 25 MiB; the total check comes first |
| AdminPageLaws.LimitsAdmitTheirBound | src/app/admin/page.tsx:146-153 | both limits are strict: exactly 25 MiB and 50 MiB pass, one byte more does not |
| AdminPageLaws.TotalSplits | src/app/admin/page.tsx:140-143 | the total is additive over any split of the selection |
| AdminPageLaws.UploadSettledRules | src/app/admin/page.tsx:186-196 | the selection is cleared only after a 2xx reply; a 413 always reads as a size problem |
| AdminPageLaws.ManageFailureHasMessage | src/app/admin/page.tsx:291-298 | a failed manage request always leaves a non-empty message |
| AdminPageLaws.SentBodiesPassValidation | src/app/admin/page.tsx:265-286 | a body the tab sends omits the target exactly for delete, and the endpoint never answers it with a 400 |
| PhotoModal.UnfavoredDropsOnlyId | src/components/modal/PhotoModal.tsx:32 | removing drops every occurrence of the id and keeps every other id |
| PhotoModal.UnfavoredSplits | src/components/modal/PhotoModal.tsx:32 | removal works piece by piece, so the remaining ids keep their order |
| PhotoModal.ToggledMembership | src/components/modal/PhotoModal.tsx:30-36 | after a toggle the id is stored exactly when it was not a favourite; no other id changes |
| PhotoModal.ToggleTwiceRestores | src/components/modal/PhotoModal.tsx:30-36 | adding an unstored id and then removing it restores the list |
| PhotoModal.TitleIsLastSegment | src/components/modal/PhotoModal.tsx:93 | the title is the text after the last '/' of the key, or of the id when the key is empty |
| PhotoModal.Modal.Show | src/components/modal/PhotoModal.tsx:17-22 | a shown photo's flag is read from the stored list, so flag and list agree |
| PhotoModal.Modal.Toggle | src/components/modal/PhotoModal.tsx:24-40 | with no photo nothing changes; otherwise the toggled list is written back and the flag flips, keeping them in agreement |
| PhotoModal.Modal.KeyDown | src/components/modal/PhotoModal.tsx:44-48 | Escape asks to close once; any other key changes nothing |
| Masonry.TilesFollowPhotos | src/components/MasonryGallery.tsx:16-19 | one tile per photo, in order, keyed by the photo id |
| Masonry.CappedBounds | src/components/MasonryGallery.tsx:30-31 | a dimension never exceeds its cap, is kept when it fits, and a missing or zero one is the cap |
| Masonry.TileSource | src/components/MasonryGallery.tsx:26-31 | the source is the optimized URL exactly when one is set; the alt text names the file; the size is within 600×800 |
| ThumbnailGrid.TypedKeepsOrder | src/components/admin/FileThumbnailGrid.tsx:33-36 | every file gets exactly one type, in listing order |
| ThumbnailGrid.FileTypeRule | src/components/admin/FileThumbnailGrid.tsx:53-59 | a name is an image exactly when its lower-cased last '.'-segment is one of the six types |
| ThumbnailGrid.ImageTypesShape | src/components/admin/FileThumbnailGrid.tsx:55 | the six types are non-empty, lower-case and free of '.' |
| ThumbnailGrid.NoDotComparedWhole | src/components/admin/FileThumbnailGrid.tsx:54-55 | a bare "png" counts as an image here, though the parser's rule says no |
| ThumbnailGrid.TiffIsFile | src/components/admin/FileThumbnailGrid.tsx:55 | a `.tiff` name is a file here, though the parser counts it as an image |
| ThumbnailGrid.HighlightRule | src/components/admin/FileThumbnailGrid.tsx:85 | with no selection exactly the tiles without a path are highlighted; otherwise those whose path equals the selection's |
| ThumbnailGrid.GridOfListing | src/components/admin/FileThumbnailGrid.tsx:24-48 | against the listing endpoint: loading ends; the error is absent exactly on success, which gives one tile per listed object; a failure shows the endpoint's message |
| Dropzone.PreviewsOnlyForImages | src/components/admin/FileUploadDropzone.tsx:40-47 | each file keeps its place and fields and gains a preview exactly when its type starts with "image/" |
| Dropzone.DropIndexRemovesOne | src/components/admin/FileUploadDropzone.tsx:74 | an index in range drops exactly that file; any other index keeps the list |
| Dropzone.TotalSizeAppend | src/components/admin/FileUploadDropzone.tsx:191 | the total of an appended list is the sum of the totals |
| Dropzone.TotalAfterRemove | src/components/admin/FileUploadDropzone.tsx:73-77 | removing a file lowers the total by exactly its size |
| Dropzone.Zone.Drag | src/components/admin/FileUploadDropzone.tsx:20-29 | enter and over set the flag, leave clears it, any other event keeps it |
| Dropzone.Zone.Add | src/components/admin/FileUploadDropzone.tsx:54-70 | a non-empty batch is appended with previews and the new list reported; an empty one changes nothing |
| Dropzone.Zone.Drop | src/components/admin/FileUploadDropzone.tsx:31-52 | the flag clears, then the dropped files are added as by `Add` |
| Dropzone.Zone.Remove | src/components/admin/FileUploadDropzone.tsx:73-77 | the list loses the index and the new list is reported |
| Dropzone.Zone.Clear | src/components/admin/FileUploadDropzone.tsx:194-197 | the list empties and the empty list is reported |
| UserVanity.UserPhotosKeepsTagged | src/app/UserVanityClient.tsx:71-74 | a photo is kept exactly when it is the gallery's and tagged with the user or stored under the user's folder |
| UserVanity.UserPhotosSplits | src/app/UserVanityClient.tsx:71-74 | the filter works piece by piece, so kept photos stay in order |
| UserVanity.KeyUnderUserFolderIsKept | src/app/UserVanityClient.tsx:73 | a key passing through a folder named after the user is the user's, tag or no tag |
| UserVanity.FileNameRule | src/app/UserVanityClient.tsx:101-124 | the name is the text after the last '/', or "photo.jpg" when that is empty, and never holds '/' |
| UserVanity.ZipNameRule | src/app/UserVanityClient.tsx:131 | the zip's name has no white space and ends in "_gallery.zip"; a space-free title is kept as it is |
| UserVanity.ZipEntriesNames | src/app/UserVanityClient.tsx:119-126 | the entry names are exactly the photos' file names |
| UserVanity.ZipEntriesLastWins | src/app/UserVanityClient.tsx:125 | of photos sharing a file name, the zip holds the last one's content |
| UserVanity.GalleryZipRule | src/app/UserVanityClient.tsx:107-140 | a zip is produced exactly when the gallery has cached photos and no fetch fails; it is named from the title and has an entry per file name |
| UserVanity.FindGallery | src/app/UserVanityClient.tsx:161 | the first gallery with the active id, or none exactly when no gallery has it |
| UserVanity.CachedOnce | src/app/UserVanityClient.tsx:56-58 | a gallery's photos are fetched at most once: a second reply leaves the cache as the first left it |
| UserVanity.CachedHoldsOnlyTagged | src/app/UserVanityClient.tsx:71-79 | every cached photo belongs to the user, and no other gallery's list changes |
| UserVanity.Vanity.constructor | src/app/UserVanityClient.tsx:14-21 | the page starts loading, with nothing fetched, selected or cached |
| UserVanity.Vanity.GalleriesFetched | src/app/UserVanityClient.tsx:23-47 | an array of galleries is stored and the first made active; a missing array or a throw sets the handler's message; loading ends either way |
| UserVanity.Vanity.Select | src/app/UserVanityClient.tsx:178 | the chosen gallery becomes active and nothing else changes |
| UserVanity.Vanity.PhotosFetched | src/app/UserVanityClient.tsx:54-87 | a fetch happens exactly for an active, non-empty, uncached id; the cache becomes `Cached` of the old one, and stays all the user's |
| UserVanity.Vanity.ActivePhotos | src/app/UserVanityClient.tsx:162 | the shown photos all belong to the user, and are non-empty only for a cached active gallery |
| UserVanity.Vanity.Click | src/app/UserVanityClient.tsx:89-91 | the clicked photo is selected and nothing else changes |
| UserVanity.Vanity.Close | src/app/UserVanityClient.tsx:93-95 | the selection clears and nothing else changes |
| UserVanity.Vanity.Download | src/app/UserVanityClient.tsx:97-105 | one save of the photo's URL under the last segment of its id |
| UserVanity.Vanity.DownloadGallery | src/app/UserVanityClient.tsx:107-140 | the loop builds `GalleryZip` of the cache, saves it when there is one, and clears the gallery's downloading flag |

## Left out

- Network, SDK and database I/O are replaced by in-memory tables and a bucket with a fault plan. Timing, retries and concurrent requests, including two reconciliation runs at once, are not modelled.
- `b2Service.listObjects` and `getObjectMetadata` are called by the source but are not part of this model (they are not in `service.ts`). Their results are an input: the listing as a `Result`, and the metadata as a map of the keys whose fetch succeeds.
- `getGalleryByFolderName`, `createGallery` and `createPhoto` are not part of this model (imported from `src/utils/supabase/server.ts`, which does not define them). The library sync treats them as a `.single()` lookup and as inserts that throw on failure.
- `randomUUID`, the clock (`new Date()`, `toISOString`), `image-size` and `getImageDimensions` are inputs: a UUID per file, `now`, `today`, and probed dimensions.
- base64 decoding (photos/upload/route.ts:30) is an input: the decoded body.
- SyncVerify.Verify: the GET response's `details` echo the three selected tables back (src/app/api/admin/sync-verify/route.ts:129-133); the model keeps only their counts in the analysis and the ten-object sample.
- `getSignedUrl` (service.ts:73-85) is not modelled, because nothing in the core calls it.
- `calculateFileHash` (upload/route.ts:222-226) is not modelled, because its result is never used.
- Admin login and the dashboard tab switch (admin/page.tsx:13-129) are not modelled. They are a password round trip and JSX.
- `toLowerCase` is modelled on ASCII letters only. `parseInt` gives `None` for NaN, and numbers are unbounded, not IEEE doubles.
- A JavaScript object key that collides with an `Object.prototype` member is not modelled: the mapping in list-files and the zip entries are Dafny maps.
- The unreachable `catch` blocks of the handlers are left out, and so is the re-check of the target at manage/route.ts:39-44, which can never fire after line 25.
- Local storage is the `favorites` field of the modal. JSON parse errors of the stored list are not modelled.
- JSZip and blobs: a zip is a map from entry name to the photo URL whose body it holds. `generateAsync` and object URLs are not modelled.
- The unused user fetch at UserVanityClient.tsx:62-63 is not modelled.
- Rendering (JSX, CSS classes, MB formatting with `toFixed`) and the disabled state of buttons are not modelled. Only the state they read is.
- ListFiles.OldestRowWins: the `created_at` order is a hypothesis on an input sequence, because the rows carry no timestamp in this model.
- UserVanity.Vanity.PhotosFetched: a reply that throws is the same as one with no photo array (both leave the cache unchanged).
- AdminPage.ManageTab.Act: a successful reply with no `message` shows `undefined`, modelled as `None`.

## Findings

| source | as written | input that shows it | evidently intended | confidence | as-written member | corrected member |
|---|---|---|---|---|---|---|
| src/app/api/admin/manage/route.ts:63-72 | (i) rows are repointed to `targetPath`, but the copy is uploaded under `<base>/<targetPath>` | move `B2 LuxSync/g/u/a.jpg` to `g/u/b.jpg`: rows get key `g/u/b.jpg`, the object is at `B2 LuxSync/g/u/b.jpg` | rows take the key and URL of the stored copy | not executed | ManageRouteLaws.AsWrittenMoveRowsMissObject | ManageRouteLaws.CorrectedMoveRowsNameObject |
| src/app/api/admin/manage/route.ts:63-83 | (ii) the source is deleted after the copy even when both keys are the same | with the default base, move `B2 LuxSync/x.jpg` to `x.jpg`: the copy lands on the source's key and is then deleted | a move onto its own key keeps the file | not executed | ManageRouteLaws.AsWrittenSelfMoveLosesFile | ManageRouteLaws.CorrectedSelfMoveKeepsFile |
| src/app/api/admin/upload/route.ts:76-79 | (iii) the row's key is built by hand, with the first "//" collapsed, while `uploadFile` stores under `<base>/<folder>/<name>` | folder path `g/` with the default base: the object is at `B2 LuxSync/g//<uuid>.jpg`, the row names `B2 LuxSync/g/<uuid>.jpg` | the row names the key the object was stored under (`fileKey` of the upload result) | not executed | UploadRouteLaws.AsWrittenRowMissesObject | UploadRouteLaws.StoredKeyRowNamesObject |
| src/app/api/admin/upload/route.ts:92-129 | (iv) `.single()` reports "no rows" as an error, so the create branch is never reached | upload to folder `new/u` when no gallery has folder_name `new`: two errors are recorded and no photo row is inserted | a missing gallery is created (as `.maybeSingle()` would allow) | not executed | UploadRouteLaws.AsWrittenMissingGallery | UploadRouteLaws.AbsentGalleryIsCreated |
