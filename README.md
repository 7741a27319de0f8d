# photomato, modelled in Dafny

photomato is a self-hosted photo gallery. A Go server lists, uploads and moves images across named storage
locations ("aliases"), each either a local directory or an S3 bucket. A React client browses them page by page.
This project models the parts of both that carry rules worth stating:

- **Storage providers** (`local.dfy`, `s3.dfy`, with `photos.dfy`, `paging.dfy`, `naming.dfy`):
  - which directory entries or bucket keys are listed as photos;
  - the newest-first order;
  - cursor pagination, where the cursor is the ID of the last photo of the previous page;
  - the conflict-free upload name `stem_k.ext`;
  - S3 keys under an optional prefix and the relative paths derived from them;
  - the S3 provider's cached scan.
- **Alias registry and batch move** (`handler.dfy`, `config.dfy`):
  - add, update and delete on the ordered alias list and the name-keyed provider map, with their 400/404/409/500 outcomes;
  - the moved/failed bookkeeping of a batch move;
  - the photo-list limit.
- **Auth gate** (`auth.dfy`): the middleware decision, login and the authentication check.
- **Client state machines**:
  - photo multi-select with drag painting (`selection.dfy`);
  - the album switcher with its wheel, debounce and search (`capsule.dfy`);
  - lightbox zoom and keys (`lightbox.dfy`);
  - gallery page flattening, next/prev navigation and the column clamp (`gallery.dfy`);
  - the toast queue (`toast.dfy`);
  - the upload status machine (`upload.dfy`).

How the model is set up:

- Directories and buckets are maps from name (or key) to what is stored there.
- A directory or bucket listing is a sequence handed to the provider.
- Every I/O outcome the code branches on is a parameter: a failed `os.Create`, a failed `PutObject`, a failed
  provider build, a failed `Config.Save`, a failed read/upload/delete during a move.
- Browser timers and awaited requests are explicit events:
  - `DebounceFired`, `TimerFired`, `ResetFired`;
  - `UploadSettled`.
- Loops that the source runs step by step are methods with loop invariants, proved against specification
  functions:
  - the listing filters, `FilterImages` and `ScanObjects`;
  - the cursor search in both `List` methods;
  - the alias scans;
  - the move loop;
  - the paste collector;
  - the upload-name search `Naming.FirstUntried`.

Where the description of the system and its code differ, the model follows the code:

- The S3 `List` sets the next cursor only when the page is also non-empty (`s3.go:234`).
- The middleware's test for `/api/v1/file` and `/api/v1/thumb` exempts nothing (`auth.go:58-66`).

## Model

| member | source | states |
|---|---|---|
| Strings.Ext | internal/provider/local.go:41 | the extension is a suffix of the name; when non-empty it starts with the last '.' and holds no other '.' and no '/' |
| Strings.Atoi | internal/api/handler.go:554 | a parsed value lies within the 64-bit int range and comes from a non-empty string |
| Strings.AtoiRejectsNonNumerals | internal/api/handler.go:554 | a string whose part after an optional '+' or '-' is empty or holds a non-digit ("", "+", "-", "5a", "abc") is rejected |
| Strings.AtoiRejectsOutOfRange | internal/api/handler.go:554 | a numeral whose value exceeds the largest 64-bit int is rejected |
| Strings.AtoiOfPlusNumeral | internal/api/handler.go:554 | "+" followed by a numeral in range parses to its value |
| Strings.AtoiOfMinusNumeral | internal/api/handler.go:554 | "-" followed by a numeral parses to its negation, down to the smallest 64-bit int |
| Strings.Join | internal/api/handler.go:100-102 | the joined path starts with the directory without its trailing slashes, then exactly one '/', then the element, which it ends with |
| Strings.JoinDropsTrailingSlashes | internal/api/handler.go:100-102 | "photos//" and "a.jpg" join to "photos/a.jpg", and "/" and "a.jpg" to "/a.jpg" |
| Strings.AtoiOfNatToString | internal/api/handler.go:554 | the decimal numeral of every natural number in int range parses back to that number |
| Photos.ImageNameNonEmpty | internal/provider/local.go:42-48 | a name whose lower-cased extension is an image extension is non-empty and has an extension of at least four characters, so a listed photo never has an empty ID |
| Photos.SortNewestFirst | internal/provider/local.go:60-63 | the sorted list is newest-first (no photo newer than one before it) and is a permutation (same multiset) of the input |
| Photos.SortKeepsIdsDistinct | internal/provider/local.go:60-63 | sorting a list with pairwise distinct IDs keeps them distinct |
| Photos.SortKeepsMembers | internal/provider/s3.go:182-185 | a photo is in the sorted list exactly when it is in the input |
| Paging.IndexOfId | internal/provider/local.go:69-74 | the result is the first position holding the ID, or None exactly when no photo has it |
| Paging.StartIndex | internal/provider/local.go:67-75 | the page starts at 0 for the empty cursor or a cursor no photo has, otherwise one past the first photo whose ID is the cursor |
| Paging.EndIndex | internal/provider/local.go:77-80 | the end is `min(start + limit, len)`: at most `limit` after the start, and exactly `limit` after it unless the list ends first |
| Paging.PageIsMaximalSlice | internal/provider/local.go:77-82 | a page is the contiguous slice right after the cursor, holds at most `limit` photos, and is short only at the end of the list |
| Paging.NextCursorMeansMore | internal/provider/local.go:83-86 | the next cursor is non-empty exactly when photos remain after the page, and is then the ID of the page's last photo |
| Paging.FollowingCursorIsAdjacent | internal/provider/local.go:67-86 | with distinct non-empty IDs, the page for the next cursor starts exactly where the previous page ended (no overlap, no gap) |
| Paging.FollowPagesFromCursor | internal/provider/local.go:67-88 | following next cursors from any cursor until one is empty collects exactly the rest of the listing after that cursor |
| Paging.FollowPagesCoversListing | internal/provider/local.go:29-88 | paging from the empty cursor collects the whole listing, each photo once, in order |
| Paging.AddInt64 | internal/provider/local.go:77 | Go's `int` addition: the 64-bit result equals the sum when it fits and is the sum shifted by 2^64 when it overflows either way |
| Paging.PageAsWritten | internal/provider/local.go:77-82 | the page as the source cuts it in 64-bit arithmetic fails exactly when start + limit overflows, and is otherwise the specified page |
| Paging.HugeLimitAfterCursorPanics | internal/provider/local.go:77-82 | with one photo, its ID as cursor and the largest accepted limit, the source's page fails where the specified page is empty |
| Local.Candidates | internal/provider/local.go:36-58 | the photos kept from a directory listing are never more than its entries |
| Local.CandidatesAreListableEntries | internal/provider/local.go:36-48 | a photo is kept exactly when it is built from a regular, non-hidden entry with an image extension |
| Local.CandidatesDistinct | internal/provider/local.go:51-54 | entries with distinct names give photos with distinct IDs, since the name is the ID |
| Local.ListingIsFilteredAndSorted | internal/provider/local.go:35-63 | the listing is newest-first, holds exactly the photos of the listable entries, has no empty ID, and has distinct IDs when the entry names are distinct |
| Local.FilterImages | internal/provider/local.go:35-58 | the filtering loop yields the listable entries' photos in directory order |
| Local.CutPage | internal/provider/local.go:67-88 | the cursor search loop and the slicing give the page the pagination specification defines |
| Local.List | internal/provider/local.go:29-88 | a failed directory read yields an error, otherwise the page after the cursor of the filtered, newest-first listing |
| Local.FreeName | internal/provider/local.go:128-142 | the chosen name is not in the directory, is the first free one among the plain name, `stem_1.ext`, `stem_2.ext`, ..., and keeps the file's extension |
| Local.Upload | internal/provider/local.go:127-156 | a successful upload stores the file under the first free name and returns it; a failed create leaves the directory as it was; a failed copy leaves a partial file under that name |
| Naming.Stem | internal/provider/local.go:128-129 | the stem followed by the extension is the file name again |
| Naming.NumberedKeepsExtension | internal/provider/local.go:140 | every name `stem_k.ext` has the uploaded file's extension |
| Naming.CandidateInjective | internal/provider/local.go:135-141 | different rounds of the naming loop try different names, and no numbered name is the plain name |
| Naming.TriedIsNew | internal/provider/local.go:135-142 | with different names on different rounds, no later round's name was tried before |
| Naming.FirstUntried | internal/provider/local.go:135-142 | the search stops at a round whose value is free, and every earlier round's value is taken; it ends because the taken set is finite |
| Naming.FirstFreeUnique | internal/provider/s3.go:343-351 | the first free name is determined by the taken names alone |
| S3.NormalizedPrefix | internal/provider/s3.go:129-132 | the empty prefix stays empty; any other prefix ends in '/' and gains at most that one character |
| S3.BuildKey | internal/provider/s3.go:386-396 | the key is the path for an empty prefix, otherwise the prefix, a '/' and then the path |
| S3.RelativePath | internal/provider/s3.go:167-171 | the stored path is a suffix of the key |
| S3.BuildKeyOfRelativePath | internal/provider/s3.go:168-171 | a key under the normalised prefix comes back from its relative path through buildKey |
| S3.RelativePathOfBuildKey | internal/provider/s3.go:386-396 | every relative path comes back from its key |
| S3.BuildKeyInjective | internal/provider/s3.go:386-396 | distinct paths have distinct keys |
| S3.ScanCandidates | internal/provider/s3.go:142-180 | the scanned photos are never more than the listed items |
| S3.ScanCandidatesAreListableObjects | internal/provider/s3.go:147-165 | a photo is scanned exactly when it is built from an object whose key does not end in '/' and whose base name is visible and has an image extension |
| S3.ScanResultIsFilteredAndSorted | internal/provider/s3.go:139-187 | the cached list is newest-first, holds exactly the listable objects' photos, has no empty ID, and maps each photo under the prefix back to its key; distinct keys give distinct IDs |
| S3.ContentType | internal/provider/s3.go:353-368 | an image content type exactly for the seven image extensions, in any letter case; application/octet-stream otherwise |
| S3.ContentTypeIgnoresCase | internal/provider/s3.go:355 | the content type does not depend on the extension's letter case |
| S3.KeyAtInjective | internal/provider/s3.go:340-350 | each round of the upload loop stats a key of its own |
| S3.FirstFreeKey | internal/provider/s3.go:343-351 | a name whose key is free while all earlier candidates' keys are taken is the first free name, with the file's extension |
| S3.FreeKey | internal/provider/s3.go:336-351 | the chosen key is buildKey of the chosen name and is not in the bucket; the name is the first free candidate and keeps the extension |
| S3.S3Provider.constructor | internal/provider/s3.go:65-69 | a new provider has an empty, unscanned cache |
| S3.S3Provider.ScanOne | internal/provider/s3.go:147-179 | an object yields a photo exactly when its key is listable, and that photo has the key as ID and the relative path |
| S3.S3Provider.ScanObjects | internal/provider/s3.go:139-180 | the scan loop fails exactly when the listing has an error, and otherwise yields the listable objects' photos in listing order |
| S3.S3Provider.Scan | internal/provider/s3.go:126-188 | scan fails exactly on a listing error, otherwise yields the sorted scan result |
| S3.S3Provider.RefreshCache | internal/provider/s3.go:107-119 | a successful scan replaces the cache and marks it scanned; a failed one changes nothing |
| S3.S3Provider.InvalidateCache | internal/provider/s3.go:80-85 | the cache is emptied and unscanned again |
| S3.S3Provider.TotalCount | internal/provider/s3.go:241-248 | -1 exactly while unscanned, otherwise the number of cached photos |
| S3.ScannedIdsAreKeys | internal/provider/s3.go:147-171 | every scanned photo's ID is the key of a listed object |
| S3.ScanCandidatesDistinct | internal/provider/s3.go:147-171 | a listing with distinct keys scans to photos with distinct IDs |
| S3.PagingCoversScan | internal/provider/s3.go:190-239 | over a listing with distinct keys, paging the cache from the empty cursor collects the whole scanned list in order |
| S3.S3Provider.List | internal/provider/s3.go:190-239 | nothing before the first scan; otherwise the page after the cursor, the same page as the local provider's for a positive limit; an empty page for limit 0 |
| S3.S3Provider.Upload | internal/provider/s3.go:331-384 | a successful put stores the object under the first free key with the extension's content type; a failed read or put leaves the bucket as it was; the cache is invalidated either way |
| Api.SplitEndpoint | internal/api/handler.go:336-337 | TLS is used exactly for an "https://" endpoint, and the host is a suffix of the endpoint |
| Api.SplitEndpointOfUrl | internal/api/handler.go:336-337 | a host without a scheme comes back from "https://host" with TLS, and from "http://host" or the bare host without |
| Api.AddRejection | internal/api/handler.go:305-356 | a request is accepted exactly when its name is non-empty and new, it carries what its type needs, and the provider builds; 409 exactly for a duplicate name with name and type given; every other refusal is 400 |
| Api.AppendKeepsNamesDistinct | internal/api/handler.go:311-316 | appending an alias whose name is new keeps the names pairwise distinct |
| Api.FindAlias | internal/api/handler.go:407-417 | the index of the first alias with the name, or None exactly when no alias has it |
| Api.ScanForName | internal/api/handler.go:407-416 | the scan finds an alias exactly when one has the name, and then returns the first such position |
| Api.Updated | internal/api/handler.go:424-445 | the alias takes the new name; the path is overwritten when given and always for a local alias; an S3 alias's other fields change only to non-empty values; the type never changes |
| Api.MoveKey | internal/api/handler.go:476-480 | the provider moves from the old name to the new one; an absent old name changes nothing |
| Api.RenameKeepsNamesDistinct | internal/api/handler.go:397-404 | renaming an alias to its own name or to a name no alias has keeps the names distinct |
| Api.WithoutRemovesName | internal/api/handler.go:505-518 | deleting keeps exactly the aliases with other names, removes at least one when the name is present, and changes nothing when it is absent |
| Api.WithoutKeepsNamesDistinct | internal/api/handler.go:505-520 | deleting keeps distinct names distinct |
| Api.DestFilePath | internal/api/handler.go:98-103 | the destination ends with the source's base name, is the base name alone without a destination directory, and otherwise lies under the directory (trailing slashes dropped) after one '/' |
| Api.StepCalls | internal/api/handler.go:105-132 | a move inside one alias is one Move call; across aliases the source is read first, and it is deleted exactly when the read and the upload succeed |
| Api.MovedAndFailedPartitionPaths | internal/api/handler.go:91-139 | moved and failed together are exactly the requested paths, each reported once |
| Api.EachPathReported | internal/api/handler.go:105-139 | the i-th requested path is reported moved when its step succeeded (a failed source delete does not count against it) and failed otherwise |
| Api.ReportedPathsHaveTheirOutcome | internal/api/handler.go:105-139 | a path reported moved has a request position whose step succeeded, and a path reported failed one whose step failed |
| Api.AllSucceededAllMoved | internal/api/handler.go:123-139 | when every path's step succeeds all paths are moved, in request order, and none failed |
| Api.PhotoLimit | internal/api/handler.go:552-557 | the limit is always positive: the query's integer when it parses and is positive, 50 otherwise |
| Api.PhotoLimitOfNumeral | internal/api/handler.go:554-555 | every positive numeral in int range is taken as the limit |
| Api.PhotoLimitOfNonNumeral | internal/api/handler.go:552-557 | a limit that is not a numeral, or is a negative one, falls back to 50 |
| Api.Handler.constructor | internal/api/handler.go:25-30 | the handler starts from the given aliases and providers |
| Api.Handler.GetPhotos | internal/api/handler.go:548-563 | 404 exactly for an alias without a provider, otherwise the parsed positive limit |
| Api.Handler.AddAlias | internal/api/handler.go:293-367 | a refused request changes nothing and answers the refusal's status; an accepted one appends exactly the alias at the end, registers its provider (with the TLS flag and stripped host) and answers 201, or 500 when saving fails; distinct names stay distinct |
| Api.Handler.UpdateAlias | internal/api/handler.go:369-491 | 400 for a missing name, 409 for a rename onto another alias's name, 404 for an unknown alias, each changing nothing; otherwise only the found entry changes; the provider moves to the new name after a successful rebuild; a failed rebuild answers 400 with the entry already renamed; distinct names stay distinct |
| Api.Handler.RebuildProvider | internal/api/handler.go:446-480 | a local or S3 alias's provider is rebuilt from its updated fields under the new name, and a failed build changes nothing; any other alias's provider moves to the new name; the alias list is untouched |
| Api.Handler.DeleteAlias | internal/api/handler.go:493-531 | 400 for an empty name and 404 for an unknown one, changing nothing; otherwise the aliases with that name are removed, the rest keep their order, and the provider entry is dropped |
| Api.Handler.MoveOne | internal/api/handler.go:94-139 | one path's outcome and provider calls are those StepSucceeded and StepCalls define |
| Api.Handler.MovePhotos | internal/api/handler.go:56-147 | 400 for a missing field and 404 for an unknown alias, both before any provider call; otherwise 200 with the moved and failed paths in request order and the provider calls path by path |
| Auth.GetPassword | internal/api/auth.go:21-26 | no password unless the flag is exactly "true"; with the flag "true" the configured password is in force (the empty one leaving the gate open) |
| Auth.TokenInjective | internal/api/auth.go:31-34 | different passwords give different tokens |
| Auth.Middleware | internal/api/auth.go:37-74 | with no password every request passes; with one, a request passes exactly when its cookie is the password's token or its path is under /api/v1/auth/ |
| Auth.FilesNeedTheCookie | internal/api/auth.go:57-68 | with a password set, /api/v1/file and /api/v1/thumb are refused without the right cookie |
| Auth.Login | internal/api/auth.go:92-119 | with no password login answers 200 without a cookie; a wrong password answers 401 without a cookie; a cookie is set exactly for the right password |
| Auth.LoginOpensTheGate | internal/api/auth.go:108-116 | login succeeds exactly for the right password or no password, and the cookie it sets passes the middleware on every path |
| Auth.StaleCookieRejected | internal/api/auth.go:48-49 | a cookie obtained under one password is refused once another password is configured |
| Auth.AuthCheck | internal/api/auth.go:123-142 | authenticated exactly when the status is 200; public exactly when no password is set |
| Auth.CheckAgreesWithMiddleware | internal/api/auth.go:123-142 | the check reports authenticated exactly when the middleware passes the same cookie on a route outside /api/v1/auth/ |
| Selection.Toggled | web/src/hooks/usePhotoSelection.js:13-23 | the toggled id changes membership and every other id keeps its membership |
| Selection.ToggleTwice | web/src/hooks/usePhotoSelection.js:13-23 | toggling the same id twice restores the selection |
| Selection.Painted | web/src/hooks/usePhotoSelection.js:44-52 | the painted id is selected exactly under 'select', and every other id is unchanged |
| Selection.ModeFor | web/src/hooks/usePhotoSelection.js:40-41 | the mode is 'deselect' exactly for an unforced press on a selected photo |
| Selection.PressTogglesPressedPhoto | web/src/hooks/usePhotoSelection.js:36-53 | an unforced press acts on the pressed photo exactly like a toggle |
| Selection.PaintedAllMembers | web/src/hooks/usePhotoSelection.js:56-67 | after a drag every photo passed over has the drag's mode and every other photo is as before |
| Selection.PhotoSelection.constructor | web/src/hooks/usePhotoSelection.js:7-10 | not in select mode, nothing selected, no drag |
| Selection.PhotoSelection.SetSelectMode | web/src/hooks/usePhotoSelection.js:95 | only the select-mode flag changes |
| Selection.PhotoSelection.Toggle | web/src/hooks/usePhotoSelection.js:13-23 | the selection becomes the toggled set; nothing else changes |
| Selection.PhotoSelection.Add | web/src/hooks/usePhotoSelection.js:26-33 | the id is added, and an id already present leaves the set as it was |
| Selection.PhotoSelection.MouseDown | web/src/hooks/usePhotoSelection.js:36-53 | a no-op unless in select mode or forced; otherwise a drag starts with the mode ModeFor gives and the pressed photo is painted with it |
| Selection.PhotoSelection.MouseEnter | web/src/hooks/usePhotoSelection.js:56-67 | the photo is painted with the drag's mode only in select mode during a drag; otherwise nothing changes |
| Selection.PhotoSelection.Exit | web/src/hooks/usePhotoSelection.js:70-75 | select mode off, the selection emptied, no drag |
| Selection.PhotoSelection.PointerUp | web/src/hooks/usePhotoSelection.js:79-84 | the drag ends and its mode is cleared; the selection and select mode are unchanged |
| Capsule.Filtered | web/src/components/AlbumCapsule.jsx:20-22 | the dropdown never lists more aliases than there are |
| Capsule.FilteredMembers | web/src/components/AlbumCapsule.jsx:20-22 | an alias is listed exactly when its lower-cased name contains the lower-cased query |
| Capsule.FilteredOfConcat | web/src/components/AlbumCapsule.jsx:20-22 | the filter works piecewise, so the listed aliases keep their order |
| Capsule.EmptyQueryKeepsAll | web/src/components/AlbumCapsule.jsx:20-22 | an empty query lists every alias |
| Capsule.IndexOf | web/src/components/AlbumCapsule.jsx:25-27 | the first position of the name, or -1 exactly when it is not listed |
| Capsule.WheelIndex | web/src/components/AlbumCapsule.jsx:43-50 | the new index stays in range; scrolling down moves one on unless at the last alias, up one back unless at the first; it stays put exactly for deltaY 0 or at the end it scrolls towards |
| Capsule.Direction | web/src/components/AlbumCapsule.jsx:119-123 | 1 exactly when the preview lies after the active alias, otherwise -1 |
| Capsule.DirectionFlips | web/src/components/AlbumCapsule.jsx:119-123 | swapping two different listed aliases reverses the direction |
| Capsule.AlbumCapsule.constructor | web/src/components/AlbumCapsule.jsx:4-10 | closed, empty query, preview on the active alias, nothing pending or loaded |
| Capsule.AlbumCapsule.ActiveChanged | web/src/components/AlbumCapsule.jsx:15-17 | a render with a changed active alias moves the preview to it; a render with the same alias leaves the preview where the wheel put it |
| Capsule.AlbumCapsule.ToggleOpen | web/src/components/AlbumCapsule.jsx:130 | only the open flag flips |
| Capsule.AlbumCapsule.SetQuery | web/src/components/AlbumCapsule.jsx:183 | only the query changes |
| Capsule.AlbumCapsule.Wheel | web/src/components/AlbumCapsule.jsx:34-64 | ignored while open or when the preview is not listed; otherwise the preview and the pending load move to the wheel's new alias only when the index changes |
| Capsule.AlbumCapsule.DebounceFired | web/src/components/AlbumCapsule.jsx:60-62 | the pending alias is loaded and nothing is pending any more |
| Capsule.AlbumCapsule.SelectAsWritten | web/src/components/AlbumCapsule.jsx:111-116 | the chosen alias is previewed and loaded, the dropdown closes and the query clears, while a wheel's pending load stays scheduled |
| Capsule.AlbumCapsule.Select | web/src/components/AlbumCapsule.jsx:111-116 | as above, with the pending load cancelled |
| Capsule.AlbumCapsule.MouseDownOutside | web/src/components/AlbumCapsule.jsx:93-98 | a press outside closes the dropdown and clears the query; one inside changes nothing |
| Capsule.StaleDebounceAfterSelect | web/src/components/AlbumCapsule.jsx:111-116 | wheel from "a" to "b", then choose "c" before the debounce fires: the last alias loaded is "b", not the chosen "c" |
| Capsule.SelectionIsFinal | web/src/components/AlbumCapsule.jsx:111-116 | the same gesture with the pending load cancelled ends with "c" loaded last and nothing pending |
| Lightbox.ZoomedIn | web/src/components/Lightbox.jsx:25 | one half-step larger, never above 3 |
| Lightbox.ZoomedOut | web/src/components/Lightbox.jsx:30 | one half-step smaller, never below 0.5 |
| Lightbox.ZoomRoundTrip | web/src/components/Lightbox.jsx:23-31 | zooming in then out (below the maximum), or out then in (above the minimum), returns to the same scale |
| Lightbox.ZoomStaysInRange | web/src/components/Lightbox.jsx:5 | from any scale in range, in particular the initial 1, any sequence of zoom presses keeps a multiple of 0.5 within [0.5, 3] |
| Lightbox.KeyActions | web/src/components/Lightbox.jsx:8-12 | Escape closes, ArrowRight goes next, ArrowLeft goes back, each exactly for its key; a key invokes at most one callback, so any other key invokes none |
| Lightbox.Viewer.constructor | web/src/components/Lightbox.jsx:5 | the viewer starts at scale 1 |
| Lightbox.Viewer.ZoomIn | web/src/components/Lightbox.jsx:23-26 | the scale becomes the zoomed-in one and stays in range |
| Lightbox.Viewer.ZoomOut | web/src/components/Lightbox.jsx:28-31 | the scale becomes the zoomed-out one and stays in range |
| Lightbox.Viewer.PhotoChanged | web/src/components/Lightbox.jsx:19-21 | a new photo is shown at scale 1 |
| Gallery.AllPhotos | web/src/components/Gallery.jsx:148 | no photos before any page has arrived |
| Gallery.FlattenOfAppend | web/src/components/Gallery.jsx:148 | a newly fetched page appends its photos, so the indexes of photos already shown stay valid |
| Gallery.FlattenLength | web/src/components/Gallery.jsx:148 | the list is as long as the pages' photo lists together |
| Gallery.FlattenMembers | web/src/components/Gallery.jsx:148 | a photo is listed exactly when some page holds it, a page without a list counting as empty |
| Gallery.Columns | web/src/components/Gallery.jsx:61 | at least one column; a count of one or more is kept |
| Gallery.ScaledBreakpoints | web/src/components/Gallery.jsx:57-63 | the same breakpoints, each with at least one column |
| Gallery.NextIndex | web/src/components/Gallery.jsx:151 | the index advances exactly when `i + 1 < length`, otherwise stays |
| Gallery.PrevIndex | web/src/components/Gallery.jsx:152 | the index retreats exactly when `i - 1 >= 0`, otherwise stays |
| Gallery.NavigationStaysInRange | web/src/components/Gallery.jsx:151-152 | an index on a photo stays on a photo under any sequence of next and previous |
| Gallery.NextThenPrev | web/src/components/Gallery.jsx:151-152 | next then previous returns to the photo left, unless it was the last |
| Gallery.Navigator.constructor | web/src/components/Gallery.jsx:25 | no photo is open |
| Gallery.Navigator.Open | web/src/components/Gallery.jsx:284 | the clicked photo is open |
| Gallery.Navigator.Next | web/src/components/Gallery.jsx:151 | the open index becomes NextIndex of the old one and stays in range |
| Gallery.Navigator.Prev | web/src/components/Gallery.jsx:152 | the open index becomes PrevIndex of the old one and stays in range |
| Gallery.Navigator.Close | web/src/components/Gallery.jsx:150 | no photo is open |
| Toasts.MakeToast | web/src/components/ui/Toast.jsx:9-11 | the toast carries the id, title and description; its type defaults to "info" and its duration to 3000 |
| Toasts.Removed | web/src/components/ui/Toast.jsx:20-22 | removing never makes the list longer |
| Toasts.RemovedMembers | web/src/components/ui/Toast.jsx:21 | removing keeps exactly the toasts with another id |
| Toasts.RemovedOfConcat | web/src/components/ui/Toast.jsx:21 | removing works piecewise, so the kept toasts keep their order |
| Toasts.RemovedUnknown | web/src/components/ui/Toast.jsx:21 | an id no toast has leaves the list unchanged |
| Toasts.AddThenRemove | web/src/components/ui/Toast.jsx:11-22 | adding a toast with a fresh id and then removing it restores the list |
| Toasts.ToastProvider.constructor | web/src/components/ui/Toast.jsx:7 | no toasts and no timers |
| Toasts.ToastProvider.AddToast | web/src/components/ui/Toast.jsx:9-18 | exactly one toast is appended at the end, and an auto-dismiss timer is scheduled exactly for a positive duration |
| Toasts.ToastProvider.RemoveToast | web/src/components/ui/Toast.jsx:20-22 | the list becomes the list without that id; the timers are unchanged |
| Toasts.ToastProvider.TimerFired | web/src/components/ui/Toast.jsx:13-17 | the fired timer is dropped and its toast removed |
| Uploads.ImageFiles | web/src/hooks/useUpload.js:52 | the filter never makes the list longer |
| Uploads.ImageFilesMembers | web/src/hooks/useUpload.js:52 | a file is kept exactly when its type starts with "image/" |
| Uploads.ImageFilesOfConcat | web/src/hooks/useUpload.js:52 | the filter works piecewise, so the images keep their order |
| Uploads.NoImagesLeft | web/src/hooks/useUpload.js:52-53 | nothing is left exactly when no file is an image |
| Uploads.PastedImages | web/src/hooks/useUpload.js:70-76 | a paste never collects more files than there are items |
| Uploads.PastedImagesMembers | web/src/hooks/useUpload.js:70-76 | a file is collected exactly when an image item yields it |
| Uploads.CollectImages | web/src/hooks/useUpload.js:70-76 | the paste loop collects exactly the files of the image items whose file is not null, in clipboard order |
| Uploads.Uploader.constructor | web/src/hooks/useUpload.js:7-8 | not dragging, no status, nothing sent, no reset pending |
| Uploads.Uploader.UploadFiles | web/src/hooks/useUpload.js:11-17 | the status becomes 'uploading' and the batch is sent |
| Uploads.Uploader.UploadSettled | web/src/hooks/useUpload.js:16-23 | success sets 'success' and schedules a reset after 2000 ms; failure sets 'error' with a reset after 3000 ms |
| Uploads.Uploader.ResetFired | web/src/hooks/useUpload.js:19-22 | the status returns to null and that reset is no longer pending |
| Uploads.Uploader.DragEnter | web/src/hooks/useUpload.js:27-31 | the drag flag is set; nothing else changes |
| Uploads.Uploader.DragLeave | web/src/hooks/useUpload.js:34-39 | the flag is cleared unless the pointer moves to an element inside the drop zone |
| Uploads.Uploader.Drop | web/src/hooks/useUpload.js:48-55 | the flag is cleared; the image files are uploaded, and nothing is when there are none |
| Uploads.Uploader.FileInputChange | web/src/hooks/useUpload.js:58-63 | the image files are uploaded and the input is cleared exactly when there is at least one; otherwise nothing happens |
| Uploads.Uploader.Paste | web/src/hooks/useUpload.js:67-80 | the default is cancelled and the collected images are uploaded exactly when at least one was found; otherwise nothing changes |

The gallery's own drag and drop handlers (`web/src/components/Gallery.jsx:124-143`) repeat the upload hook's
handlers step for step, so `Uploads.Uploader` models them too.

## Left out

- HTTP decoding, encoding and routing are left out: method checks, JSON bodies, `ServeMux` registration, cookies
  as headers, `http.ServeFile` and redirects. The handlers that only proxy a provider call are left out for the
  same reason: aliases, file, thumbnail, photo delete, multi-file upload, cache clear and the S3 connection test.
- Real I/O is left out: `os.ReadDir`, `Stat`, `Create`, `Rename`, `Remove`, `io.Copy` and every minio call.
  Listings and the directory or bucket contents are inputs, and each failure is a boolean or outcome parameter.
- The providers' `Delete`, `Move`, `GetFileReader`, `GetThumbnail` and `GetOriginalURL` are single foreign calls;
  the batch move models them only as the provider calls it issues.
- Local.Upload: a `Stat` error other than "does not exist" makes the source try the next name. The model treats a
  name as taken exactly when it is in the directory map.
- S3.S3Provider.Upload: any `StatObject` error makes the source take the name. The model treats a key as free
  exactly when it is not in the bucket map.
- The source discards the error of the entry's `Info()` and then reads the size from the nil result, which panics and
  fails the request. The model gives every entry its size and time.
- Concurrency in the S3 provider is left out: the mutex, the goroutines started by `NewS3Provider`,
  `invalidateCache` and `List`, the `scanning` guard, and the 20-second staleness check on wall-clock time. A
  rescan is an explicit `RefreshCache` call.
- Photos.SortNewestFirst: Go's `sort.Slice` is not stable, so photos with equal times may come out in any order
  there. The model fixes one admissible order, and its contract states only what both share: newest-first and a
  permutation of the input.
- Local.List requires a positive limit. With limit 0 and photos remaining, the source would index `result[-1]`.
  Its only caller always passes a positive limit (`Api.PhotoLimit`).
- Local.List computes the page's end as an unbounded sum. The source's `start + limit` wraps in 64 bits, so a
  limit near 2^63 after a cursor panics there (see Findings); `Paging.PageAsWritten` models that case.
- S3.S3Provider.List computes the page's end as an unbounded sum, as Local.List does; the wrap is the same
  finding. It also requires a non-negative limit: a negative one panics in `make` in the source, and the handler
  never passes one.
- Auth.Token is not SHA-256 (FIPS 180-4) in hex. It is the salted string itself, which keeps the one property the
  gate relies on: different passwords give different tokens.
- The 500 ms delay after a wrong password is left out; only the environment variables' values are modelled.
- Strings.ToLower folds ASCII letters only, where Go's `strings.ToLower` and JavaScript's `toLowerCase` fold all
  of Unicode. This affects the extension filter, the content type and the album search.
- Strings.Join does not apply the rest of `filepath.Clean`. The directory's trailing slashes give way to one
  '/', but repeated slashes inside it, '.' and '..' stay as given.
- Thumbnails (`internal/thumb`), the YAML config `Load`/`Save` and server start-up are left out; a save is a
  boolean outcome.
- Gallery.ScaledBreakpoints: the density multiplier `0.6 + density / 100 * 1.2` and `Math.round` are
  floating-point work. The model takes the rounded counts as input and states only the clamp to at least one
  column. localStorage persistence is also left out.
- Timers are events. `setTimeout` delays are recorded (toast durations, the 2000/3000 ms upload resets), but no
  clock orders them. The 500 ms debounce is the `DebounceFired` event.
- A reset timer from an earlier upload can clear the status during a later upload. The model allows this, as the
  source does.
- Uploads.Uploader.FileInputChange: the source clears the input only after the awaited upload settles. The model
  returns the decision, `clearsInput`, at once.
- The album dropdown's own wheel handler (`web/src/components/AlbumCapsule.jsx:71-89`) only decides whether the
  browser scrolls the page, so it is left out. Focus handling, rendering, animation and styling are left out too.
- The context menu, delete and move dialogs, login page, header and settings screens are left out. They hold
  presentation state only.

## Findings

| source | as written | input that shows it | evidently intended | confidence | as-written member | corrected member |
|---|---|---|---|---|---|---|
| internal/provider/local.go:77-82 | `end := start + limit` wraps in 64-bit `int`; the wrapped end is below `start`, so `allPhotos[start:end]` panics (`make([]Photo, end-start)` in internal/provider/s3.go:224-230) | `?limit=9223372036854775807&cursor=` the ID of any listed photo (start >= 1) | the page is the rest of the listing after the cursor | medium, not executed | Paging.HugeLimitAfterCursorPanics | Paging.PageIsMaximalSlice |
| web/src/components/AlbumCapsule.jsx:111-116 | handleSelect loads the chosen alias but does not clear the wheel's pending debounce timer (set at lines 56-62) | scroll the capsule from "a" to "b", open the dropdown and choose "c" within 500 ms: the timer then loads "b" after "c" | the alias chosen in the dropdown stays loaded | medium, not executed | Capsule.StaleDebounceAfterSelect | Capsule.SelectionIsFinal |
