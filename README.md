# Peekr core, modelled in Dafny

Peekr ingests an uploaded video into an HLS catalog and serves it back.
This project models four pieces of its decision logic and proves
properties of them.

- **The Node ingestion backend** (`backend/index.js`). The `/upload`
  handler runs a strict sequence of stages:
  1. transcode the rendition ladder;
  2. generate the preview stream;
  3. upload the preview tree;
  4. upload the rendition tree;
  5. generate the sprites;
  6. upload the sprites;
  7. upload the thumbnail;
  8. write the catalog record.

  The first failure ends the request with a 500, and a `finally` block
  removes the temporary files and the per-id output directories. Also
  modelled:
  - the hidden-file-skipping walk over a generated directory;
  - the object keys and content types;
  - the sprite filter and the `preview` metadata;
  - the paging arithmetic of `GET /videos`;
  - `deleteFromSeaweed` with its fallback, and the delete route;
  - `ensureBucketExists`.
- **The ASP.NET minimal API** (`minimalApi/Program.cs`), over an in-memory
  collection. It covers:
  - the id checks;
  - the NotFound, NoContent and BadRequest outcomes;
  - the overwrites POST and PUT make;
  - the entity-to-DTO mapping of `/videos`;
  - the blank-query check and the newest-first order of `/search`.
- **The FluentValidation rule sets** (`VideoValidator`,
  `VideoPreviewValidator`), as the list of failures they report. This
  includes which members those failures name.
- **The player helpers** (`frontend/pages/HlsPlayer.jsx`):
  - `formatTime`;
  - the quality-level filter;
  - `changeQuality`, `changeSpeed`, `togglePlay` and the mute toggle, as
    methods on the player's state.

## Layout

| file | module | what |
|---|---|---|
| `wrappers.dfy` | `Wrappers` | `Option` |
| `text.dfy` | `Text` | string helpers: splitting and joining, JavaScript and .NET white space, trimming, decimal numerals |
| `objectid.dfy` | `ObjectIds` | ObjectId texts: the 24-digit check, the lower-case form an id reads back as, and when two texts name the same id |
| `artifacts.dfy` | `Artifacts` | the walk, the keys and content types, sprites, the thumbnail extension, the catalog record |
| `pagination.dfy` | `Pagination` | `parseInt`, the fallback to defaults, skip and page count |
| `ingestion.dfy` | `Ingestion` | the `/upload` pipeline and its cleanup, the delete routine and route, the bucket check, as the `Backend` class |
| `models.dfy` | `Models` | the API's `Video` and `VideoPreview` documents |
| `validators.dfy` | `Validators` | `VideoValidator` and `VideoPreviewValidator` |
| `uploaded_preview.dfy` | `UploadedPreview` | the backend's `preview` metadata checked by the API's validator |
| `api.dfy` | `MinimalApi` | the routes of `Program.cs`, as the `Collection` class |
| `player.dfy` | `Player` | the player helpers, as the `Player` class |

Each external effect is a parameter, never computed. This covers:
- ffmpeg;
- each S3 put;
- `VideoDb.create`;
- the Mongo driver's failures;
- the ids the text index matches;
- the fresh ObjectId, as the lower-case text it reads back as;
- the clock.

The object store is modelled as the SeaweedFS filer namespace: a map from
filer path to content type, in which an object with key `k` in bucket
`hls-videos` lives at `buckets/hls-videos/k`. The delete routine's primary
URL and its fallback URL are two recursive deletes in that namespace.

## Model

| member | source | states |
|---|---|---|
| `Artifacts.Walk` | backend/index.js:305-311 | every path the walk returns lies strictly below the directory walked |
| `Artifacts.WalkExactly` | backend/index.js:305-311 | a path is returned exactly when it is reached from the root through names that do not start with "." and it names a file |
| `Artifacts.WalkReturnsNoDirectory` | backend/index.js:305-311 | in a listing where no path is both a file and a directory, every returned path is a reached file and never a directory |
| `Artifacts.ContentTypeOf` | backend/index.js:320-322 | the content type is the HLS playlist type exactly when the path ends in ".m3u8", and the MPEG-TS segment type otherwise |
| `Artifacts.ContentTypeByName` | backend/index.js:315-335 | for a walked path, the playlist type is chosen exactly when the file's own name ends in ".m3u8" |
| `Artifacts.TreeKeyIsJoin` | backend/index.js:316-319 | the key of a walked file is the id, the namespace and the relative path joined with "/" |
| `Artifacts.TreeKeyInjective` | backend/index.js:315-335 | for file and directory names without '\\', two walked files of the same upload never share a key, across the `preview` and `hls` trees as well |
| `Artifacts.TreePuts` | backend/index.js:315-335 | one put per walked file, in walk order, each under its tree key with the type its name selects |
| `Artifacts.RootFileUploaded` | backend/index.js:305-335 | a file that ffmpeg leaves at the root of its output directory under a name not starting with "." is uploaded under that name's tree key |
| `Artifacts.SpriteNames` | backend/index.js:339-341 | the sprite files are exactly the listed names of the form `preview_*.jpg`, and there are no more of them than entries |
| `Artifacts.SpritePuts` | backend/index.js:343-349 | one `image/jpeg` put per sprite file, in order, under `<id>/preview/<name>` |
| `Artifacts.LastIndexOf` | backend/index.js:351 | the last position of the character, or -1 exactly when it does not occur |
| `ObjectIds.CanonicalId` | minimalApi/Models/Video.cs:7-9 | a 24-digit text converts to 24 lower-case digits of the same values |
| `ObjectIds.SameObjectId` | minimalApi/Models/Video.cs:7-9 | two texts convert to the same id exactly when their digits agree in value, position by position |
| `Artifacts.Extname` | backend/index.js:351 | the extension is empty, or an end of the name that starts with "." and holds no other "." and no "/" |
| `Artifacts.ExtnameIff` | backend/index.js:351 | the extension is non-empty exactly when the name's last segment is not ".." and has a "." after its first character; it is then an end of that segment |
| `Artifacts.PreviewMetaAsWritten` | backend/index.js:366-374 | the metadata as written: interval 2, a 5 x 5 grid of 160 x 90 frames, and the number of sprite files found |
| `Artifacts.RecordedIntervalIsNotSamplingInterval` | backend/index.js:337-368 | the recorded interval differs from the 5 seconds at which the sprites were sampled |
| `Artifacts.PreviewMetaFor` | backend/index.js:337-374 | the corrected metadata records the sampling interval, and every sprite key is served under its base URL |
| `Artifacts.PreviewMetaCorrection` | backend/index.js:366-374 | the corrected metadata differs from the written one in the interval only |
| `Artifacts.RecordFor` | backend/index.js:359-375 | the document carries the upload's id, is created and last updated at the same instant, and holds the preview metadata as written, whose interval is not the sampling interval |
| `Artifacts.CorrectedRecordFor` | backend/index.js:337-375 | the corrected document holds the corrected preview metadata |
| `Artifacts.RecordCorrection` | backend/index.js:337-375 | the corrected document differs from the written one only in the preview's interval, which becomes the sampling interval |
| `Artifacts.PlaylistUrls` | backend/index.js:363-364 | the two playlist URLs of the record are the public addresses of the tree keys of `index.m3u8` and `master.m3u8` at the root of their trees |
| `Artifacts.RecordAddressesKeys` | backend/index.js:359-375 | every URL in the record is the public address of a key the upload uses: the two root playlist keys, the thumbnail key with the same extension, and each sprite key under the sprite base URL |
| `Pagination.NatReadsBack` | backend/index.js:434-435 | `parseInt` reads JavaScript's decimal form of a whole number back as that number |
| `Pagination.IntReadsBack` | backend/index.js:434-435 | the same for negative numbers, sign included |
| `Pagination.PageOf` | backend/index.js:434-436 | page and limit are never 0, and skip is `(page - 1) * limit` |
| `Pagination.PageParameters` | backend/index.js:434-436 | positive parameters are used as given, and absent ones give page 1 and limit 12 with nothing skipped |
| `Pagination.CeilDiv` | backend/index.js:453 | the quotient rounded up, for either sign of the divisor |
| `Pagination.PagesCoverTotal` | backend/index.js:436-453 | with a positive limit, each document lies on exactly one page, that page is within the page count, and the page after the last skips past every document |
| `Ingestion.ObjectPathInjective` | backend/index.js:134-145 | distinct keys are stored at distinct filer paths |
| `Ingestion.FailIndex` | backend/index.js:315-324 | the position of the first put that rejects, before which every put succeeds |
| `Ingestion.AllSucceedIff` | backend/index.js:315-324 | a loop of puts succeeds exactly when no key in it rejects |
| `Ingestion.Stored` | backend/index.js:315-324 | a loop stores a prefix of its puts, and all of them exactly when none rejects |
| `Ingestion.ApplyStores` | backend/index.js:134-145 | after the puts every key is in the filer and nothing already there disappears |
| `Ingestion.ApplyTouchesOnlyPutKeys` | backend/index.js:134-145 | a path that no put writes keeps its entry, or its absence |
| `Ingestion.ApplyContentTypes` | backend/index.js:134-145 | each key ends up with the content type of its last put |
| `Ingestion.ApplyAppend` | backend/index.js:315-357 | storing two runs of puts in turn is storing their concatenation |
| `Ingestion.CreatedIff` | backend/index.js:284-384 | a record is created exactly when both files arrived, every ffmpeg run and every put succeeds, the id is unused and the insert goes through |
| `Ingestion.NoFailureIff` | backend/index.js:303-375 | no stage fails exactly when every tool run, every put and the insert succeed |
| `Ingestion.StoredIsPrefix` | backend/index.js:303-357 | what a request stores is always a prefix of what a complete upload stores |
| `Ingestion.StoredAllIff` | backend/index.js:303-357 | everything is stored exactly when no stage before the insert fails, and after such a failure something is missing |
| `Ingestion.KeysUnderId` | backend/index.js:315-357 | every tree, sprite and thumbnail key begins with `<id>/` |
| `Ingestion.ObjectPathUnderId` | backend/index.js:470-475 | a key under the id is stored under the id's directory in the bucket |
| `Ingestion.PlanUnderId` | backend/index.js:315-357 | every put of an upload is under its id |
| `Ingestion.ApplyUnderId` | backend/index.js:315-357 | puts under one id change the filer only inside that id's directory, and only by adding |
| `Ingestion.UploadStaysUnderId` | backend/index.js:303-357 | an upload, failed or not, changes the filer only inside its id's directory |
| `Ingestion.CreatedStoresEverything` | backend/index.js:315-375 | when the record is written, every object of the upload is in the filer |
| `Ingestion.PlanStoresRoots` | backend/index.js:315-357 | the thumbnail, under the original name's extension, and each root playlist ffmpeg wrote are among the objects of the upload |
| `Ingestion.CreatedRecordAddressesStored` | backend/index.js:315-375 | a created record's thumbnail URL addresses the stored thumbnail, its playlist URLs address stored playlists whenever ffmpeg wrote them, and its interval is the written 2 |
| `Ingestion.GeneratorsWriteWorkDirs` | backend/index.js:297-337 | the ffmpeg steps write only the id's three output directories |
| `Ingestion.UnlinkCallsCover` | backend/index.js:387-393 | the unlinks reach exactly the temporary files that exist, at most two, and remove no directory |
| `Ingestion.RemoveCallsCover` | backend/index.js:395-409 | the removals reach exactly the three directories of an assigned id, and unlink no file |
| `Ingestion.CleanupCallsCover` | backend/index.js:385-414 | run to its end, the cleanup unlinks the files that exist and removes the id's directories exactly when an id was assigned |
| `Ingestion.RemoveDir` | backend/index.js:473-479 | a recursive delete removes exactly the paths under the directory and keeps every other entry |
| `Ingestion.PrimaryDeleteClearsId` | backend/index.js:473-479 | a successful primary delete leaves nothing under the id's directory of the bucket and keeps the rest |
| `Ingestion.FallbackSparesBucket` | backend/index.js:481-491 | the fallback URL lies outside the bucket, so it never removes a stored object |
| `Ingestion.UploadThenDelete` | backend/index.js:470-479 | deleting an id after its upload leaves the filer as deleting it before the upload would |
| `Ingestion.Backend.constructor` | backend/index.js:52-62 | the empty world: no objects, records, directories or buckets |
| `Ingestion.Backend.EnsureBucketExists` | backend/index.js:67-73 | an existing bucket is left alone; a missing one is created when the create succeeds; the bucket exists exactly when the call reports success |
| `Ingestion.Backend.Generate` | backend/index.js:303-313 | an ffmpeg step fills its output directory and reports the tool's exit status |
| `Ingestion.Backend.UploadAll` | backend/index.js:315-324 | the loop's puts are stored in order up to the first rejection, and the loop succeeds exactly when none rejects |
| `Ingestion.Backend.TreeStages` | backend/index.js:303-335 | the transcode, the preview stream and both tree uploads, stopping at the first failing stage |
| `Ingestion.Backend.MediaStages` | backend/index.js:337-357 | the sprites and the thumbnail, stopping at the first failing stage, with the number of sprite files found |
| `Ingestion.Backend.Pipeline` | backend/index.js:284-384 | the response is the specified outcome; a missing file changes nothing; otherwise the filer grows by what the stages stored; the catalog gains the record exactly on success |
| `Ingestion.Backend.UnlinkTemps` | backend/index.js:387-393 | the existing temporary files are unlinked in order, up to the call that throws |
| `Ingestion.Backend.RemoveWorkDirs` | backend/index.js:395-409 | the id's three directories are removed in order, up to the call that throws |
| `Ingestion.Backend.Cleanup` | backend/index.js:385-414 | the calls of the cleanup take effect in order up to the one that throws, and nothing else changes |
| `Ingestion.Backend.HandleUpload` | backend/index.js:279-416 | for a fresh ObjectId, the response is the pipeline's whatever the cleanup does; without a cleanup fault every temporary file and, once an id was assigned, the id's directories are gone |
| `Ingestion.Backend.DeleteFromStore` | backend/index.js:470-493 | no effect for an empty id; otherwise the primary delete, or the fallback when it fails; never an error |
| `Ingestion.Backend.DeleteVideo` | backend/index.js:495-507 | an id that does not cast to an ObjectId, or a failing lookup, rejects before the `try` and changes nothing; otherwise the record is found by the id's value: 404 when absent, else the objects are deleted before the record, and the record goes exactly when the response is success |
| `Validators.Nested` | minimalApi/Validators/VideoValidator.cs:26-28 | the child validator's failures, one for one, reported under `preview` |
| `Validators.StringRulesIff` | minimalApi/Validators/VideoValidator.cs:7-15 | a bounded string rule passes exactly when the string is present, not blank, and of a length within the bounds |
| `Validators.PreviewValidIff` | minimalApi/Validators/VideoPreviewValidator.cs:5-27 | a preview is valid exactly when its base URL is not blank and all six numbers are positive |
| `Validators.ValidIff` | minimalApi/Validators/VideoValidator.cs:5-29 | a video is valid exactly when every rule holds on its own member, including a present and valid preview |
| `Validators.MembersConcat` | minimalApi/Validators/VideoValidator.cs:5-29 | the members named by consecutive rules are the union of the members each rule names |
| `Validators.StringRulesReport` | minimalApi/Validators/VideoValidator.cs:7-15 | a bounded string rule names its member exactly when it fails |
| `Validators.NotEmptyReport` | minimalApi/Validators/VideoValidator.cs:17-24 | a `NotEmpty` rule names its member exactly when the string is absent or blank |
| `Validators.FailuresNameFailingMembers` | minimalApi/Validators/VideoValidator.cs:7-24 | the string members the failures name are exactly those whose rules fail |
| `Validators.PreviewRuleReports` | minimalApi/Validators/VideoValidator.cs:26-28 | the preview rule fails exactly on a null or invalid preview, and reports under `preview` only |
| `UploadedPreview.BaseUrlIsFilled` | backend/index.js:367 | the sprite base URL the backend writes is never blank |
| `UploadedPreview.WrittenPreviewValidIff` | minimalApi/Validators/VideoPreviewValidator.cs:5-27 | the backend's preview metadata passes the preview validator exactly when at least one sprite file was found |
| `UploadedPreview.CorrectedPreviewValidIff` | minimalApi/Validators/VideoPreviewValidator.cs:5-27 | the same holds for the metadata with the corrected interval |
| `MinimalApi.ToDtos` | minimalApi/Program.cs:146-163 | one DTO per stored video, in collection order |
| `MinimalApi.ToDtoKeeps` | minimalApi/Program.cs:146-163 | two videos map to the same DTO exactly when they agree on all but the three paths, a null base URL counting as "" |
| `MinimalApi.Find` | minimalApi/Program.cs:186 | a document with the id, or none exactly when no document has it |
| `MinimalApi.LookupByValue` | minimalApi/Models/Video.cs:7-9 | two texts convert to the same id exactly when their digits agree in value, and then they find the same document, whatever their case |
| `MinimalApi.FoundIdsAreObjectIds` | minimalApi/Program.cs:243-251 | in a collection keyed by ObjectIds, an id that does not parse is never found |
| `MinimalApi.RemoveFound` | minimalApi/Program.cs:251-258 | removing the document found for an id keeps the collection keyed, drops the id, and shortens it by one |
| `MinimalApi.Insert` | minimalApi/Program.cs:209-212 | inserting into a newest-first list keeps it newest first and adds exactly that document |
| `MinimalApi.SortNewestFirst` | minimalApi/Program.cs:209-212 | the result is ordered by `CreatedAt`, newest first, and is a permutation of the input |
| `MinimalApi.Matching` | minimalApi/Program.cs:207-211 | the documents the text index matches, each of them and only those |
| `MinimalApi.StampingKeepsValidity` | minimalApi/Program.cs:219-283 | the overwrites POST and PUT make never change the validator's verdict, so an invalid body is stored as it is |
| `MinimalApi.EmptyBodyIsInvalid` | minimalApi/Program.cs:219-237 | an empty body fails every string rule, and POST stores it all the same |
| `MinimalApi.Collection.constructor` | minimalApi/Program.cs:19-23 | an empty, well-keyed collection |
| `MinimalApi.Collection.ListVideos` | minimalApi/Program.cs:138-176 | the DTO of every stored video in order, or a problem when the database fails |
| `MinimalApi.Collection.GetVideo` | minimalApi/Program.cs:178-198 | a length other than 24 is refused before any lookup; a 24-character id that is not hexadecimal escapes as an uncaught conversion error; then a problem, not found when no document has the id's value, or the stored video whose id has the same digits |
| `MinimalApi.Collection.Search` | minimalApi/Program.cs:200-217 | a null or blank query is refused; otherwise the matches, newest first, or an uncaught database error |
| `MinimalApi.Collection.Post` | minimalApi/Program.cs:219-237 | the body is appended with the new id and both timestamps, and is returned as created at `/videos/<id>` |
| `MinimalApi.Collection.Delete` | minimalApi/Program.cs:239-266 | an id that does not parse is refused; then a problem, not found with the message echoing the id as written, or removal of the document with the id's value and no content |
| `MinimalApi.Collection.Put` | minimalApi/Program.cs:268-290 | a length other than 24 is refused; a non-hexadecimal id or a database error escapes uncaught; then not found, or the document with the id's value replaced by the body with that id and a new update time, the response echoing the id as written |
| `Player.PadStart2` | frontend/pages/HlsPlayer.jsx:38 | a string shorter than two is padded on the left with "0" to length two; a longer one is kept |
| `Player.WholeParts` | frontend/pages/HlsPlayer.jsx:36-37 | for a time that is not negative, the minutes are the whole seconds divided by 60 and the seconds their remainder |
| `Player.SecondsField` | frontend/pages/HlsPlayer.jsx:37-38 | a seconds value below 60 becomes exactly two digits that read back as it |
| `Player.FormatNonNegative` | frontend/pages/HlsPlayer.jsx:34-39 | the label of a time that is not negative: whole minutes, ":", and two digits of seconds |
| `Player.FormatTimeReadsBack` | frontend/pages/HlsPlayer.jsx:34-39 | the label splits at its one ":" into a minutes numeral and a two-digit seconds numeral below 60 that together give the whole seconds |
| `Player.VideoLevels` | frontend/pages/HlsPlayer.jsx:97-99 | exactly the levels with a numeric height above 0 are kept |
| `Player.VideoLevelsAppend` | frontend/pages/HlsPlayer.jsx:97-99 | the filter keeps the original order: it distributes over concatenation |
| `Player.VideoLevelsIdempotent` | frontend/pages/HlsPlayer.jsx:97-99 | filtering again changes nothing |
| `Player.FindHeight` | frontend/pages/HlsPlayer.jsx:158-160 | the first level with the height, or none exactly when no level has it |
| `Player.MenuLevelsMatch` | frontend/pages/HlsPlayer.jsx:95-165 | every menu entry offered after the manifest is parsed has a real level of the same height |
| `Player.SameHeightShadowed` | frontend/pages/HlsPlayer.jsx:158-160 | of two levels of the same height, the later one can never be selected |
| `Player.Player.constructor` | frontend/pages/HlsPlayer.jsx:19-32 | the initial state: paused, full volume, normal speed, Auto, no levels |
| `Player.Player.ManifestParsed` | frontend/pages/HlsPlayer.jsx:95-103 | the menu holds the filtered levels and the selection resets to Auto; nothing else changes |
| `Player.Player.ChangeQuality` | frontend/pages/HlsPlayer.jsx:144-166 | nothing without an instance; Auto for -1; otherwise the first real level of the entry's height, with the menu selection following, or no change when there is none |
| `Player.Player.ChangeSpeed` | frontend/pages/HlsPlayer.jsx:137-141 | the element's rate and the displayed speed become the new speed, and the settings menu closes |
| `Player.Player.TogglePlay` | frontend/pages/HlsPlayer.jsx:41-57 | a click inside the controls changes nothing; otherwise a paused element is asked to play and the button shows playing, even when the element refuses; a playing element pauses and the button shows paused |
| `Player.Player.PlaybackEnded` | frontend/pages/HlsPlayer.jsx:19 | at the end of the media the element pauses while the displayed play state stays as it was |
| `Player.ReplayAfterEnd` | frontend/pages/HlsPlayer.jsx:41-57 | after the media ends the button still shows playing, and the next toggle plays again |
| `Player.Player.ToggleMute` | frontend/pages/HlsPlayer.jsx:247-253 | silent becomes full volume and anything else silent, on the element as well |
| `Player.SelectAfterManifest` | frontend/pages/HlsPlayer.jsx:95-165 | after the manifest is parsed, choosing any menu entry selects a real level of that entry's height |

## Left out

- The `p-queue` transcode queue (backend/index.js:46-50, 303), the rate limiters, multer and CORS: admission and middleware, not decision logic. Each ffmpeg run is an outcome given to the model.
- ffmpeg, ffprobe and the ffmpeg command lines: external processes. What a run leaves in its directory is a parameter.
- The S3 client, `@aws-sdk/lib-storage`, axios and mongoose: each call is a success or failure given as a parameter, including the lookup of the delete route (`findOk`). The fresh ObjectId is a parameter too.
- `Ingestion.Backend.DeleteVideo`: a rejection before the `try` is the response `DeleteEscaped`. What Express then does with it (no response in Express 4, a 500 from its default handler in Express 5) is not modelled. Twelve-character strings, which older bson versions cast as raw bytes, are treated as ids that do not cast.
- `Ingestion.Backend.EnsureBucketExists`: any error of the HEAD request is treated as the bucket being absent, as the bare `catch` does. Transport errors are not told apart.
- Uploads into a bucket that does not exist are modelled as puts whose keys reject.
- `Artifacts.Extname`: models `path.extname` on POSIX for a name without a trailing '/'. A trailing '/', which a multer original name never has, is not stripped.
- `Artifacts.TreeKeyInjective`: proved for names without '\\'. On POSIX a name may contain '\\', and the replacement at backend/index.js:318 then gives a root file `a\\b.ts` the key of `b.ts` in a directory `a`. The names ffmpeg writes contain no '\\'.
- Symbolic links in the walk: `fs.statSync` follows them; the model has files and directories only.
- `Artifacts.RecordFor`: mongoose's `timestamps` and `trim` are modelled as the clock reading and JavaScript's `trim`. Field order and the `_id` conversion are not modelled.
- The `GET /videos/:id` and `GET /search` routes of the Node backend (backend/index.js:461-465, 509-537): not part of this model.
- `Pagination.PageOf`: `parseInt` works on doubles, so digits beyond 2^53 lose precision; the model reads exact integers. An array-valued query parameter is not modelled.
- The Mongo sort, skip and limit themselves, including a negative skip or limit: the driver's behaviour. Only the arithmetic is modelled.
- `MinimalApi.SortNewestFirst`: ties in `CreatedAt` may come back in any order. The model fixes one order and promises only ordering and permutation.
- `MinimalApi.Matching`: the text index's tokenising and stemming. The matching ids are a parameter.
- `MinimalApi.Collection.GetVideo`: a 24-character id that is not hexadecimal makes the driver's conversion throw a `FormatException`, which the route does not catch. The model answers `Unhandled` and leaves the framework's 500 body out.
- `MinimalApi.Collection.Put`: the same holds for such an id, and for a database error, since the route catches nothing.
- `MinimalApi.Collection.Post`: the two clock readings are parameters and are not required to be equal.
- `.NET` string lengths count UTF-16 code units; the model counts characters.
- `Models.Video`: the model includes the `previewPath` and `preview` members, which the validator and the `/videos` route read, although minimalApi/Models/Video.cs does not declare them.
- The rate limiting of the API routes and the global exception handler's wording: responses are reduced to their kind and the messages the routes write themselves.
- `Player.Player.TogglePlay`: `play()` returns a promise; whether the element accepts it is the `playAllowed` parameter, decided at the call.
- `Player.FormatTime`: times are exact reals. Infinities and floating-point rounding are not modelled, and read-back is proved for times that are not negative.
- The rest of HlsPlayer.jsx: hls.js itself, the DOM, fullscreen, the mouse timers, and the progress, buffered and volume percentages. These are UI and floating point.
- The React pages and components other than HlsPlayer.jsx, App.jsx routing and the Vite configuration: UI with no decision logic.

## Findings

| source | as written | input that shows it | evidently intended | confidence | as-written member | corrected member |
|---|---|---|---|---|---|---|
| backend/index.js:337-368 | the record stores `frameInterval: 2`, while the sprites were sampled with `generatePreviewSprites(..., 5)`, one frame every 5 seconds | any upload: the sprite sheet's frame k shows time 5k, while a player reading the record seeks it at 2k | `frameInterval` equal to the sampling interval, 5 | medium, not executed | `Artifacts.RecordedIntervalIsNotSamplingInterval` | `Artifacts.CorrectedRecordFor` |

The upload pipeline writes the record as backend/index.js does, with interval 2 (`Ingestion.CreatedRecordAddressesStored` states it for every created record). The corrected record is stated beside it, and the API's preview validator accepts the written and the corrected metadata alike.
