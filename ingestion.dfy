/** The stateful part of backend/index.js: the `/upload` handler with its
    `finally` cleanup, `deleteFromSeaweed` and the delete route, and
    `ensureBucketExists`.

    The world the handler acts on is a `Backend` object: the temporary
    files multer has stored, the local output directories the ffmpeg
    steps write, the SeaweedFS filer namespace (a map from filer path to
    content type), the catalog of records, and the set of S3 buckets.
    What the external tools do is not computed here: each ffmpeg run, each
    S3 put and the catalog insert are given as outcomes. */
module Ingestion {
  import opened Wrappers
  import opened Text
  import opened Artifacts
  import opened ObjectIds

  // ---------------------------------------------------------------------
  // Requests, outcomes and responses

  /** A file multer stored: where, under what client-side name, and the
      mime type the client declared. */
  datatype UploadFile = UploadFile(path: string, originalName: string, mimeType: string)

  /** `req.files.video[0]`, `req.files.thumbnail[0]` and the text fields. */
  datatype UploadRequest = UploadRequest(
    video: Option<UploadFile>,
    thumbnail: Option<UploadFile>,
    title: Option<string>,
    description: Option<string>)

  /** What one ffmpeg run leaves in its output directory, and whether it
      exited successfully. The directory is created before the run, so it
      exists even when the run fails. */
  datatype ToolRun = ToolRun(output: seq<Entry>, ok: bool)

  /** The outcome of everything outside the handler for one request. */
  datatype Outcomes = Outcomes(
    transcode: ToolRun,          // convertToABRHLS, through the queue
    previewHls: ToolRun,         // generatePreviewHLS
    sprites: ToolRun,            // generatePreviewSprites
    failingKeys: set<string>,    // object keys whose S3 put rejects
    createOk: bool,              // whether VideoDb.create succeeds on an unused id
    cleanupFault: Option<nat>)   // the cleanup call, counted from 0, that throws

  /** The steps of the handler, in the order it runs them. */
  datatype Stage =
    | Transcode | PreviewGenerate | PreviewUpload | RenditionUpload
    | SpriteGenerate | SpriteUpload | ThumbnailUpload | CatalogCreate

  /** 200 with the record, 400 "Files missing", or 500 "Upload failed"
      carrying the stage whose error message is reported. */
  datatype UploadResponse = Created(record: Record) | FilesMissing | UploadFailed(stage: Stage)

  // ---------------------------------------------------------------------
  // Where things go

  function HlsDir(id: string): Path { ["temp_hls", id] }
  function PreviewHlsDir(id: string): Path { ["temp_preview_hls", id] }
  function SpriteDir(id: string): Path { ["temp_preview_sprites", id] }

  /** The three per-id output directories the `finally` block removes. */
  function WorkDirs(id: string): set<Path> {
    {HlsDir(id), PreviewHlsDir(id), SpriteDir(id)}
  }

  /** The bucket as the filer shows it. */
  const BucketRoot := "buckets/" + BucketName + "/"

  /** Where the filer keeps the object stored under `key`. */
  function ObjectPath(key: string): (p: string)
    ensures StartsWith(p, BucketRoot) && p[|BucketRoot|..] == key
  {
    BucketRoot + key
  }

  lemma ObjectPathInjective(k1: string, k2: string)
    requires ObjectPath(k1) == ObjectPath(k2)
    ensures k1 == k2
  {
    assert k1 == ObjectPath(k1)[|BucketRoot|..];
  }

  // ---------------------------------------------------------------------
  // Sequential uploads

  /** How many of `puts` go through before the first one that rejects. */
  function FailIndex(puts: seq<Put>, failing: set<string>): (k: nat)
    ensures k <= |puts|
    ensures forall j :: 0 <= j < k ==> puts[j].key !in failing
    ensures k < |puts| ==> puts[k].key in failing
  {
    if |puts| == 0 || puts[0].key in failing then 0
    else 1 + FailIndex(puts[1..], failing)
  }

  predicate AllSucceed(puts: seq<Put>, failing: set<string>) {
    FailIndex(puts, failing) == |puts|
  }

  lemma AllSucceedIff(puts: seq<Put>, failing: set<string>)
    ensures AllSucceed(puts, failing) <==> forall p :: p in puts ==> p.key !in failing
  {
    if !AllSucceed(puts, failing) {
      assert puts[FailIndex(puts, failing)] in puts;
    }
  }

  /** The puts of one loop that are stored: those before the first
      rejection. */
  function Stored(puts: seq<Put>, failing: set<string>): (s: seq<Put>)
    ensures |s| <= |puts| && s == puts[..|s|]
    ensures s == puts <==> AllSucceed(puts, failing)
  {
    puts[..FailIndex(puts, failing)]
  }

  /** The filer after `puts` have been stored one after the other. */
  function Apply(filer: map<string, string>, puts: seq<Put>): map<string, string> {
    if |puts| == 0 then filer
    else Apply(filer, puts[..|puts| - 1])[ObjectPath(puts[|puts| - 1].key) := puts[|puts| - 1].contentType]
  }

  /** Storing keeps every object already there and adds one per put. */
  lemma {:induction false} ApplyStores(filer: map<string, string>, puts: seq<Put>)
    ensures filer.Keys <= Apply(filer, puts).Keys
    ensures forall j :: 0 <= j < |puts| ==> ObjectPath(puts[j].key) in Apply(filer, puts)
  {
    if |puts| > 0 {
      ApplyStores(filer, puts[..|puts| - 1]);
      assert forall j :: 0 <= j < |puts| - 1 ==> puts[..|puts| - 1][j] == puts[j];
    }
  }

  /** Storing touches nothing but the puts' own keys. */
  lemma {:induction false} ApplyTouchesOnlyPutKeys(filer: map<string, string>, puts: seq<Put>, k: string)
    requires forall j :: 0 <= j < |puts| ==> ObjectPath(puts[j].key) != k
    ensures k in Apply(filer, puts) <==> k in filer
    ensures k in filer ==> Apply(filer, puts)[k] == filer[k]
  {
    if |puts| > 0 {
      ApplyTouchesOnlyPutKeys(filer, puts[..|puts| - 1], k);
    }
  }

  /** With distinct keys, every stored object carries its put's content type. */
  lemma {:induction false} ApplyContentTypes(filer: map<string, string>, puts: seq<Put>, j: nat)
    requires j < |puts|
    requires forall i :: j < i < |puts| ==> puts[i].key != puts[j].key
    ensures ObjectPath(puts[j].key) in Apply(filer, puts)
    ensures Apply(filer, puts)[ObjectPath(puts[j].key)] == puts[j].contentType
  {
    ApplyStores(filer, puts);
    if j < |puts| - 1 {
      var last := puts[|puts| - 1];
      if ObjectPath(last.key) == ObjectPath(puts[j].key) {
        ObjectPathInjective(last.key, puts[j].key);
      }
      ApplyContentTypes(filer, puts[..|puts| - 1], j);
    }
  }

  /** Storing `a` then `b` is storing `a + b`. */
  lemma {:induction false} ApplyAppend(filer: map<string, string>, a: seq<Put>, b: seq<Put>)
    ensures Apply(filer, a + b) == Apply(Apply(filer, a), b)
  {
    if |b| > 0 {
      var ab := a + b;
      assert ab[..|ab| - 1] == a + b[..|b| - 1];
      ApplyAppend(filer, a, b[..|b| - 1]);
    } else {
      assert a + b == a;
    }
  }

  // ---------------------------------------------------------------------
  // The objects of one upload

  /** The objects an upload stores, stage by stage: the preview tree, the
      rendition tree, the sprites and the thumbnail. */
  datatype UploadPlan = UploadPlan(preview: seq<Put>, renditions: seq<Put>, sprites: seq<Put>, thumbnail: Put)
  {
    /** Everything a complete upload stores, in upload order. */
    function All(): seq<Put> {
      preview + renditions + sprites + [thumbnail]
    }

    /** The first failing stage among the two ffmpeg runs that produce the
        HLS trees and the two tree uploads. */
    function TreeFailure(env: Outcomes): Option<Stage> {
      if !env.transcode.ok then Some(Transcode)
      else if !env.previewHls.ok then Some(PreviewGenerate)
      else if !AllSucceed(preview, env.failingKeys) then Some(PreviewUpload)
      else if !AllSucceed(renditions, env.failingKeys) then Some(RenditionUpload)
      else None
    }

    /** The first failing stage among sprite generation, the sprite uploads
        and the thumbnail upload. */
    function MediaFailure(env: Outcomes): Option<Stage> {
      if !env.sprites.ok then Some(SpriteGenerate)
      else if !AllSucceed(sprites, env.failingKeys) then Some(SpriteUpload)
      else if thumbnail.key in env.failingKeys then Some(ThumbnailUpload)
      else None
    }

    /** What the first four stages store. */
    function TreeStored(env: Outcomes): seq<Put> {
      if !env.transcode.ok || !env.previewHls.ok then []
      else if !AllSucceed(preview, env.failingKeys) then Stored(preview, env.failingKeys)
      else preview + Stored(renditions, env.failingKeys)
    }

    /** What the next three stages store. */
    function MediaStored(env: Outcomes): seq<Put> {
      if !env.sprites.ok then []
      else if !AllSucceed(sprites, env.failingKeys) then Stored(sprites, env.failingKeys)
      else sprites + Stored([thumbnail], env.failingKeys)
    }

    /** Every put the handler gets through, in the order it makes them. */
    function StoredBy(env: Outcomes): seq<Put> {
      if TreeFailure(env).Some? then TreeStored(env) else TreeStored(env) + MediaStored(env)
    }
  }

  function PreviewPuts(id: string, env: Outcomes): seq<Put> {
    TreePuts(id, "preview", PreviewHlsDir(id), env.previewHls.output)
  }

  function RenditionPuts(id: string, env: Outcomes): seq<Put> {
    TreePuts(id, "hls", HlsDir(id), env.transcode.output)
  }

  function SpriteStagePuts(id: string, env: Outcomes): seq<Put> {
    SpritePuts(id, SpriteDir(id), SpriteNames(env.sprites.output))
  }

  /** The thumbnail is stored under the original name's extension, with
      the mime type the client declared. */
  function ThumbnailPut(id: string, thumb: UploadFile): (put: Put)
    ensures put.key == ThumbnailKey(id, Extname(thumb.originalName))
    ensures put.contentType == thumb.mimeType
  {
    Put(thumb.path, ThumbnailKey(id, Extname(thumb.originalName)), thumb.mimeType)
  }

  /** The objects of the upload of video `id`, given what the tools left. */
  function PlanFor(id: string, thumb: UploadFile, env: Outcomes): UploadPlan {
    UploadPlan(PreviewPuts(id, env), RenditionPuts(id, env), SpriteStagePuts(id, env), ThumbnailPut(id, thumb))
  }

  // ---------------------------------------------------------------------
  // The response and the local directories

  /** The stage whose error ends the handler, or None when every stage
      succeeds. */
  function FirstFailure(plan: UploadPlan, env: Outcomes, id: string, catalog: map<string, Record>): Option<Stage>
  {
    if plan.TreeFailure(env).Some? then plan.TreeFailure(env)
    else if plan.MediaFailure(env).Some? then plan.MediaFailure(env)
    else if !env.createOk || id in catalog then Some(CatalogCreate)
    else None
  }

  /** The record the handler writes for a complete upload. */
  function UploadRecord(req: UploadRequest, id: string, thumb: UploadFile, env: Outcomes, now: int): Record {
    RecordFor(id, req.title, req.description, Extname(thumb.originalName),
              |SpriteNames(env.sprites.output)|, now)
  }

  /** The response to an upload request. */
  function Outcome(req: UploadRequest, id: string, now: int, env: Outcomes,
                   catalog: map<string, Record>): UploadResponse
  {
    if req.video.None? || req.thumbnail.None? then FilesMissing
    else match FirstFailure(PlanFor(id, req.thumbnail.value, env), env, id, catalog)
      case Some(s) => UploadFailed(s)
      case None => Created(UploadRecord(req, id, req.thumbnail.value, env, now))
  }

  /** The local directories after the two HLS runs: each run leaves its
      output directory, and a failed transcode stops the preview run. */
  function TreeDirs(dirs: map<Path, seq<Entry>>, id: string, env: Outcomes): map<Path, seq<Entry>> {
    var d := dirs[HlsDir(id) := env.transcode.output];
    if env.transcode.ok then d[PreviewHlsDir(id) := env.previewHls.output] else d
  }

  /** The local directories after every ffmpeg step that ran: the sprite
      run happens only when the first four stages succeed. */
  function AfterGenerators(dirs: map<Path, seq<Entry>>, id: string, treeFailure: Option<Stage>, env: Outcomes)
    : map<Path, seq<Entry>>
  {
    if treeFailure.Some? then TreeDirs(dirs, id, env)
    else TreeDirs(dirs, id, env)[SpriteDir(id) := env.sprites.output]
  }

  // ---------------------------------------------------------------------
  // Properties of an upload

  /** An upload succeeds exactly when both files arrived, every ffmpeg run
      succeeds, every object is stored, and the id is unused in the
      catalog and the insert goes through. */
  lemma CreatedIff(req: UploadRequest, id: string, now: int, env: Outcomes,
                   catalog: map<string, Record>)
    ensures Outcome(req, id, now, env, catalog).Created? <==>
      && req.video.Some? && req.thumbnail.Some?
      && env.transcode.ok && env.previewHls.ok && env.sprites.ok
      && (forall p :: p in PlanFor(id, req.thumbnail.value, env).All() ==> p.key !in env.failingKeys)
      && env.createOk && id !in catalog
  {
    if req.video.Some? && req.thumbnail.Some? {
      var plan := PlanFor(id, req.thumbnail.value, env);
      assert Outcome(req, id, now, env, catalog).Created? <==> FirstFailure(plan, env, id, catalog).None?;
      NoFailureIff(plan, env, id, catalog);
    }
  }

  lemma NoFailureIff(plan: UploadPlan, env: Outcomes, id: string, catalog: map<string, Record>)
    ensures FirstFailure(plan, env, id, catalog).None? <==>
      && env.transcode.ok && env.previewHls.ok && env.sprites.ok
      && (forall p :: p in plan.All() ==> p.key !in env.failingKeys)
      && env.createOk && id !in catalog
  {
    assert forall p :: p in plan.All() <==>
      p in plan.preview || p in plan.renditions || p in plan.sprites || p == plan.thumbnail;
    AllSucceedIff(plan.preview, env.failingKeys);
    AllSucceedIff(plan.renditions, env.failingKeys);
    AllSucceedIff(plan.sprites, env.failingKeys);
  }

  /** What the handler stores is always the beginning of what a complete
      upload stores: the stages upload in order and stop at the first
      failure. */
  lemma StoredIsPrefix(plan: UploadPlan, env: Outcomes)
    ensures var stored := plan.StoredBy(env);
      |stored| <= |plan.All()| && stored == plan.All()[..|stored|]
  {
    var a, b, c, t := plan.preview, plan.renditions, plan.sprites, [plan.thumbnail];
    var all := plan.All();
    var failing := env.failingKeys;
    assert all == a + b + c + t;
    if env.transcode.ok && env.previewHls.ok && AllSucceed(a, failing) {
      var kb := |Stored(b, failing)|;
      assert a + b[..kb] == all[..|a| + kb];
      if plan.TreeFailure(env).None? && env.sprites.ok {
        if !AllSucceed(c, failing) {
          var kc := |Stored(c, failing)|;
          assert a + b + c[..kc] == all[..|a| + |b| + kc];
        } else {
          var kt := |Stored(t, failing)|;
          assert a + b + c + t[..kt] == all[..|a| + |b| + |c| + kt];
        }
      }
    }
  }

  /** The handler stores everything exactly when no stage before the
      catalog insert fails; after such a failure the thumbnail, the last
      object, is not stored. */
  lemma StoredAllIff(plan: UploadPlan, env: Outcomes)
    ensures plan.StoredBy(env) == plan.All() <==>
      plan.TreeFailure(env).None? && plan.MediaFailure(env).None?
    ensures plan.TreeFailure(env).Some? || plan.MediaFailure(env).Some? ==>
      |plan.StoredBy(env)| < |plan.All()|
  {
    var stored := plan.StoredBy(env);
    StoredIsPrefix(plan, env);
    if plan.TreeFailure(env).Some? || plan.MediaFailure(env).Some? {
      assert |stored| <= |plan.preview| + |plan.renditions| + |plan.sprites|;
    }
  }

  /** The keys of the upload of `id` all begin with the id's directory. */
  predicate UnderId(key: string, id: string) {
    StartsWith(key, id + "/")
  }

  lemma ConcatPrefix(a: string, b: string)
    ensures StartsWith(a + b, a)
  {
    assert (a + b)[..|a|] == a;
  }

  lemma KeysUnderId(id: string, ns: string, rel: Path, name: Name, ext: string)
    ensures UnderId(TreeKey(id, ns, rel), id)
    ensures UnderId(SpriteKey(id, name), id)
    ensures UnderId(ThumbnailKey(id, ext), id)
  {
    ConcatPrefix(id + "/", ns + "/" + RelativeKey(rel));
    assert TreeKey(id, ns, rel) == id + "/" + (ns + "/" + RelativeKey(rel));
    ConcatPrefix(id + "/", "preview/" + name);
    assert SpriteKey(id, name) == id + "/" + ("preview/" + name);
    ConcatPrefix(id + "/", "thumbnail" + ext);
    assert ThumbnailKey(id, ext) == id + ("/thumbnail" + ext);
    assert id + ("/thumbnail" + ext) == (id + "/") + ("thumbnail" + ext);
  }

  /** In the filer, the objects under the id's key prefix lie in the id's
      directory of the bucket. */
  lemma ObjectPathUnderId(key: string, id: string)
    requires UnderId(key, id)
    ensures StartsWith(ObjectPath(key), ObjectPath(id + "/"))
  {
    assert key == (id + "/") + key[|id| + 1..];
    assert ObjectPath(key) == ObjectPath(id + "/") + key[|id| + 1..];
    ConcatPrefix(ObjectPath(id + "/"), key[|id| + 1..]);
  }

  /** Every object the upload of `id` stores is keyed under the id. */
  lemma PlanUnderId(id: string, thumb: UploadFile, env: Outcomes)
    ensures forall p :: p in PlanFor(id, thumb, env).All() ==> UnderId(p.key, id)
  {
    var plan := PlanFor(id, thumb, env);
    forall p | p in plan.All()
      ensures UnderId(p.key, id)
    {
      var a, b, c := plan.preview, plan.renditions, plan.sprites;
      assert p in a || p in b || p in c || p == plan.thumbnail;
      if p in a {
        var i :| 0 <= i < |a| && a[i] == p;
        var f := Walk(PreviewHlsDir(id), env.previewHls.output)[i];
        KeysUnderId(id, "preview", f[|PreviewHlsDir(id)|..], "", "");
      } else if p in b {
        var i :| 0 <= i < |b| && b[i] == p;
        var f := Walk(HlsDir(id), env.transcode.output)[i];
        KeysUnderId(id, "hls", f[|HlsDir(id)|..], "", "");
      } else if p in c {
        var i :| 0 <= i < |c| && c[i] == p;
        KeysUnderId(id, "", [], SpriteNames(env.sprites.output)[i], "");
      } else {
        KeysUnderId(id, "", [], "", Extname(thumb.originalName));
      }
    }
  }

  /** The filer before and after an upload of `id`: nothing is removed,
      and nothing outside the id's directory of the bucket changes. */
  predicate FilerGrowsUnder(before: map<string, string>, after: map<string, string>, id: string) {
    && before.Keys <= after.Keys
    && forall k :: k in after && !StartsWith(k, ObjectPath(id + "/")) ==> k in before && after[k] == before[k]
  }

  /** Storing objects under the id's keys changes only the id's directory. */
  lemma ApplyUnderId(filer: map<string, string>, puts: seq<Put>, id: string)
    requires forall j :: 0 <= j < |puts| ==> UnderId(puts[j].key, id)
    ensures FilerGrowsUnder(filer, Apply(filer, puts), id)
  {
    ApplyStores(filer, puts);
    forall k | k in Apply(filer, puts) && !StartsWith(k, ObjectPath(id + "/"))
      ensures k in filer && Apply(filer, puts)[k] == filer[k]
    {
      forall j | 0 <= j < |puts|
        ensures ObjectPath(puts[j].key) != k
      {
        ObjectPathUnderId(puts[j].key, id);
      }
      ApplyTouchesOnlyPutKeys(filer, puts, k);
    }
  }

  /** An upload of `id`, whatever stage it stops at, adds to the filer
      only inside the id's directory of the bucket and removes nothing. */
  lemma UploadStaysUnderId(filer: map<string, string>, id: string, thumb: UploadFile, env: Outcomes)
    ensures FilerGrowsUnder(filer, Apply(filer, PlanFor(id, thumb, env).StoredBy(env)), id)
  {
    var plan := PlanFor(id, thumb, env);
    var stored := plan.StoredBy(env);
    StoredIsPrefix(plan, env);
    PlanUnderId(id, thumb, env);
    assert forall j :: 0 <= j < |stored| ==> stored[j] == plan.All()[j];
    assert forall j :: 0 <= j < |stored| ==> plan.All()[j] in plan.All();
    ApplyUnderId(filer, stored, id);
  }

  /** The record is written only once every object of the upload is in
      the filer. */
  lemma CreatedStoresEverything(filer: map<string, string>, req: UploadRequest, id: string, now: int,
                                env: Outcomes, catalog: map<string, Record>)
    requires Outcome(req, id, now, env, catalog).Created?
    ensures var plan := PlanFor(id, req.thumbnail.value, env);
      forall p :: p in plan.All() ==> ObjectPath(p.key) in Apply(filer, plan.StoredBy(env))
  {
    var plan := PlanFor(id, req.thumbnail.value, env);
    StoredAllIff(plan, env);
    ApplyStores(filer, plan.All());
  }

  /** The URLs of a created record address objects the upload stored:
      the thumbnail, under the original name's extension, always; the
      preview and master playlists whenever ffmpeg wrote them at the root
      of their trees. The record keeps the interval as written. */
  lemma CreatedRecordAddressesStored(filer: map<string, string>, req: UploadRequest, id: string, now: int,
                                     env: Outcomes, catalog: map<string, Record>)
    requires Outcome(req, id, now, env, catalog).Created?
    ensures var plan := PlanFor(id, req.thumbnail.value, env);
      var after := Apply(filer, plan.StoredBy(env));
      var r := Outcome(req, id, now, env, catalog).record;
      && r.thumbnailPath == PublicBase + ThumbnailKey(id, Extname(req.thumbnail.value.originalName))
      && ObjectPath(ThumbnailKey(id, Extname(req.thumbnail.value.originalName))) in after
      && (File("index.m3u8") in env.previewHls.output ==>
            && r.previewPath == PublicBase + TreeKey(id, "preview", ["index.m3u8"])
            && ObjectPath(TreeKey(id, "preview", ["index.m3u8"])) in after)
      && (File("master.m3u8") in env.transcode.output ==>
            && r.videoPath == PublicBase + TreeKey(id, "hls", ["master.m3u8"])
            && ObjectPath(TreeKey(id, "hls", ["master.m3u8"])) in after)
      && r.preview.frameInterval == 2
  {
    var thumb := req.thumbnail.value;
    var plan := PlanFor(id, thumb, env);
    var r := UploadRecord(req, id, thumb, env, now);
    assert Outcome(req, id, now, env, catalog).record == r;
    RecordAddressesKeys(id, req.title, req.description, Extname(thumb.originalName),
                        |SpriteNames(env.sprites.output)|, now);
    CreatedStoresEverything(filer, req, id, now, env, catalog);
    PlanStoresRoots(id, thumb, env);
  }

  /** The thumbnail is among the objects of a plan, and so is each root
      playlist ffmpeg wrote. */
  lemma PlanStoresRoots(id: string, thumb: UploadFile, env: Outcomes)
    ensures var plan := PlanFor(id, thumb, env);
      && plan.thumbnail.key == ThumbnailKey(id, Extname(thumb.originalName))
      && plan.thumbnail in plan.All()
      && (File("index.m3u8") in env.previewHls.output ==>
            exists p :: p in plan.All() && p.key == TreeKey(id, "preview", ["index.m3u8"]))
      && (File("master.m3u8") in env.transcode.output ==>
            exists p :: p in plan.All() && p.key == TreeKey(id, "hls", ["master.m3u8"]))
  {
    var plan := PlanFor(id, thumb, env);
    PlanMembers(plan);
    PlaylistNamesShown();
    if File("index.m3u8") in env.previewHls.output {
      RootFileUploaded(id, "preview", PreviewHlsDir(id), env.previewHls.output, "index.m3u8");
      var j :| 0 <= j < |plan.preview| && plan.preview[j].key == TreeKey(id, "preview", ["index.m3u8"]);
      assert plan.preview[j] in plan.preview;
    }
    if File("master.m3u8") in env.transcode.output {
      RootFileUploaded(id, "hls", HlsDir(id), env.transcode.output, "master.m3u8");
      var j :| 0 <= j < |plan.renditions| && plan.renditions[j].key == TreeKey(id, "hls", ["master.m3u8"]);
      assert plan.renditions[j] in plan.renditions;
    }
  }

  lemma PlanMembers(plan: UploadPlan)
    ensures forall p :: p in plan.preview ==> p in plan.All()
    ensures forall p :: p in plan.renditions ==> p in plan.All()
    ensures plan.thumbnail in plan.All()
  {
    assert plan.All() == plan.preview + plan.renditions + plan.sprites + [plan.thumbnail];
  }

  /** The generated directories are the id's work directories. */
  lemma GeneratorsWriteWorkDirs(dirs: map<Path, seq<Entry>>, id: string, treeFailure: Option<Stage>, env: Outcomes)
    ensures AfterGenerators(dirs, id, treeFailure, env) - WorkDirs(id) == dirs - WorkDirs(id)
  {
  }

  // ---------------------------------------------------------------------
  // The `finally` cleanup

  /** One file-system call of the cleanup. */
  datatype CleanupCall = Unlink(path: string) | RemoveTree(dir: Path)

  /** The temporary files that arrived, by path (an empty path is falsy and
      skipped). */
  function TempPaths(video: Option<UploadFile>, thumb: Option<UploadFile>): set<string> {
    (if video.Some? && video.value.path != "" then {video.value.path} else {})
    + (if thumb.Some? && thumb.value.path != "" then {thumb.value.path} else {})
  }

  /** The calls the cleanup issues when none throws: an unlink for each
      temporary file that still exists, then, once an id was assigned, a
      forced recursive removal of each of its output directories. */
  function CleanupCalls(video: Option<UploadFile>, thumb: Option<UploadFile>, id: string,
                        uploads: set<string>): seq<CleanupCall>
  {
    UnlinkCalls(video, thumb, uploads) + RemoveCalls(id)
  }

  /** The unlinks: the video file, then the thumbnail file, each only if
      its path is set and the file still exists. */
  function UnlinkCalls(video: Option<UploadFile>, thumb: Option<UploadFile>, uploads: set<string>)
    : seq<CleanupCall>
  {
    var v := if video.Some? && video.value.path != "" && video.value.path in uploads
             then [Unlink(video.value.path)] else [];
    var left := if v == [] then uploads else uploads - {video.value.path};
    var t := if thumb.Some? && thumb.value.path != "" && thumb.value.path in left
             then [Unlink(thumb.value.path)] else [];
    v + t
  }

  /** The removals of the three output directories of an assigned id. */
  function RemoveCalls(id: string): seq<CleanupCall> {
    if id != "" then [RemoveTree(HlsDir(id)), RemoveTree(PreviewHlsDir(id)), RemoveTree(SpriteDir(id))]
    else []
  }

  /** How many calls take effect: all, unless one throws, which ends the
      cleanup there. */
  function Completed(calls: seq<CleanupCall>, fault: Option<nat>): (n: nat)
    ensures n <= |calls|
    ensures fault.None? ==> n == |calls|
  {
    if fault.Some? && fault.value < |calls| then fault.value else |calls|
  }

  /** The same fault, counted from the call numbered `k` on. */
  function After(fault: Option<nat>, k: nat): Option<nat> {
    if fault.Some? && fault.value >= k then Some(fault.value - k) else None
  }

  /** When a call of the first run of calls throws, the rest never run. */
  lemma CompletedBefore(u: seq<CleanupCall>, r: seq<CleanupCall>, fault: Option<nat>)
    requires fault.Some? && fault.value < |u|
    ensures (u + r)[..Completed(u + r, fault)] == u[..Completed(u, fault)]
  {
  }

  /** When the first run of calls completes, the rest stop at the fault
      counted from its end. */
  lemma CompletedAfter(u: seq<CleanupCall>, r: seq<CleanupCall>, fault: Option<nat>)
    requires !(fault.Some? && fault.value < |u|)
    ensures var m := Completed(r, After(fault, |u|));
      (u + r)[..Completed(u + r, fault)] == u + r[..m]
  {
  }

  function UnlinkedBy(calls: seq<CleanupCall>): set<string> {
    set c | c in calls && c.Unlink? :: c.path
  }

  function RemovedBy(calls: seq<CleanupCall>): set<Path> {
    set c | c in calls && c.RemoveTree? :: c.dir
  }

  /** What two runs of calls remove together. */
  lemma CallsConcat(a: seq<CleanupCall>, b: seq<CleanupCall>)
    ensures UnlinkedBy(a + b) == UnlinkedBy(a) + UnlinkedBy(b)
    ensures RemovedBy(a + b) == RemovedBy(a) + RemovedBy(b)
  {
    assert forall x :: x in a + b <==> x in a || x in b;
  }

  /** The unlinks reach exactly the temporary files that exist, and
      remove no directory. */
  lemma UnlinkCallsCover(video: Option<UploadFile>, thumb: Option<UploadFile>, uploads: set<string>)
    ensures var calls := UnlinkCalls(video, thumb, uploads);
      && |calls| <= 2
      && UnlinkedBy(calls) == TempPaths(video, thumb) * uploads
      && forall n :: 0 <= n <= |calls| ==> RemovedBy(calls[..n]) == {}
  {
    var calls := UnlinkCalls(video, thumb, uploads);
    forall p | p in TempPaths(video, thumb) * uploads
      ensures p in UnlinkedBy(calls)
    {
      assert Unlink(p) in calls;
    }
  }

  /** The removals reach exactly the id's three directories, and unlink
      no file. */
  lemma RemoveCallsCover(id: string)
    ensures var calls := RemoveCalls(id);
      && |calls| <= 3
      && RemovedBy(calls) == (if id != "" then WorkDirs(id) else {})
      && forall n :: 0 <= n <= |calls| ==> UnlinkedBy(calls[..n]) == {}
  {
    var calls := RemoveCalls(id);
    if id != "" {
      assert RemoveTree(HlsDir(id)) in calls && RemoveTree(PreviewHlsDir(id)) in calls
        && RemoveTree(SpriteDir(id)) in calls;
    }
  }

  /** Run to the end, the cleanup unlinks exactly the temporary files that
      exist and removes the id's three directories exactly when an id was
      assigned; it issues at most five calls. */
  lemma CleanupCallsCover(video: Option<UploadFile>, thumb: Option<UploadFile>, id: string,
                          uploads: set<string>)
    ensures var calls := CleanupCalls(video, thumb, id, uploads);
      && |calls| <= 5
      && UnlinkedBy(calls) == TempPaths(video, thumb) * uploads
      && RemovedBy(calls) == (if id != "" then WorkDirs(id) else {})
  {
    var u := UnlinkCalls(video, thumb, uploads);
    var r := RemoveCalls(id);
    UnlinkCallsCover(video, thumb, uploads);
    RemoveCallsCover(id);
    CallsConcat(u, r);
    assert u[..|u|] == u && r[..|r|] == r;
  }

  // ---------------------------------------------------------------------
  // Deleting from the store

  /** The filer after a recursive delete of the directory `dir`. */
  function RemoveDir(filer: map<string, string>, dir: string): (f: map<string, string>)
    ensures forall k :: k in f <==> k in filer && !StartsWith(k, dir)
    ensures forall k :: k in f ==> f[k] == filer[k]
  {
    map k | k in filer && !StartsWith(k, dir) :: filer[k]
  }

  /** `DELETE /buckets/hls-videos/<id>/?recursive=true` */
  function PrimaryDir(id: string): string { ObjectPath(id + "/") }

  /** `DELETE /hls-videos/<id>/?recursive=true` */
  function FallbackDir(id: string): string { BucketName + "/" + id + "/" }

  /** `deleteFromSeaweed(id)`: nothing for a falsy id; otherwise the
      primary delete, and only if that fails, the fallback once. A failing
      fallback is logged and swallowed. */
  function StoreAfterDelete(filer: map<string, string>, id: string, primaryOk: bool, fallbackOk: bool)
    : map<string, string>
  {
    if id == "" then filer
    else if primaryOk then RemoveDir(filer, PrimaryDir(id))
    else if fallbackOk then RemoveDir(filer, FallbackDir(id))
    else filer
  }

  /** A successful primary delete leaves nothing in the id's directory of
      the bucket and keeps everything else. */
  lemma PrimaryDeleteClearsId(filer: map<string, string>, id: string, fallbackOk: bool)
    requires id != ""
    ensures var f := StoreAfterDelete(filer, id, true, fallbackOk);
      forall k :: k in f <==> k in filer && !StartsWith(k, ObjectPath(id + "/"))
  {
  }

  /** The fallback path lies outside the bucket's directory, so the
      fallback never removes a stored object. */
  lemma FallbackSparesBucket(filer: map<string, string>, id: string, fallbackOk: bool)
    ensures var f := StoreAfterDelete(filer, id, false, fallbackOk);
      forall k :: StartsWith(k, BucketRoot) ==> (k in f <==> k in filer)
  {
    forall k | StartsWith(k, BucketRoot)
      ensures !StartsWith(k, FallbackDir(id))
    {
      assert k[0] == 'b';
      assert FallbackDir(id)[0] == 'h';
    }
  }

  /** Deleting the id's directory after an upload of that id leaves the
      filer as deleting it before the upload would have. */
  lemma UploadThenDelete(before: map<string, string>, after: map<string, string>, id: string)
    requires FilerGrowsUnder(before, after, id)
    ensures RemoveDir(after, PrimaryDir(id)) == RemoveDir(before, PrimaryDir(id))
  {
  }

  /** `{ success: true }`, 404, 500 "Failed to delete video", or a
      rejection that escapes the handler: `findById` is awaited before the
      `try`, so neither its cast error nor a database error is answered by
      the route. */
  datatype DeleteResponse = Deleted | DeleteNotFound | DeleteFailed | DeleteEscaped

  // ---------------------------------------------------------------------
  // The backend's state

  class Backend {
    /** Temporary files multer has stored. */
    var uploads: set<string>
    /** Local output directories and what is in them. */
    var dirs: map<Path, seq<Entry>>
    /** The filer namespace: path to content type. */
    var filer: map<string, string>
    /** `VideoDb`, by id. */
    var catalog: map<string, Record>
    /** The S3 buckets that exist. */
    var buckets: set<string>

    constructor(stored: set<string>)
      ensures uploads == stored && dirs == map[] && filer == map[] && catalog == map[]
      ensures buckets == {}
    {
      uploads := stored;
      dirs := map[];
      filer := map[];
      catalog := map[];
      buckets := {};
    }

    /** `ensureBucketExists`: a HEAD on the bucket, and a create only when
        that fails. */
    method EnsureBucketExists(createOk: bool) returns (ok: bool)
      modifies this
      ensures BucketName in old(buckets) ==> buckets == old(buckets)
      ensures BucketName !in old(buckets) ==>
        buckets == if createOk then old(buckets) + {BucketName} else old(buckets)
      ensures ok <==> BucketName in buckets
      ensures uploads == old(uploads) && dirs == old(dirs) && filer == old(filer) && catalog == old(catalog)
    {
      if BucketName in buckets {
        return true;
      }
      if !createOk {
        return false;
      }
      buckets := buckets + {BucketName};
      return true;
    }

    /** One ffmpeg step: its output directory is created, the tool fills it
        and exits with success or failure. */
    method Generate(dir: Path, run: ToolRun) returns (ok: bool)
      modifies this
      ensures ok == run.ok
      ensures dirs == old(dirs)[dir := run.output]
      ensures uploads == old(uploads) && filer == old(filer) && catalog == old(catalog)
      ensures buckets == old(buckets)
    {
      dirs := dirs[dir := run.output];
      ok := run.ok;
    }

    /** `for (...) await uploadToSeaweed(...)`: the puts run in order and
        the first rejection ends the loop. */
    method UploadAll(puts: seq<Put>, failing: set<string>) returns (ok: bool)
      modifies this
      ensures ok == AllSucceed(puts, failing)
      ensures filer == Apply(old(filer), Stored(puts, failing))
      ensures uploads == old(uploads) && dirs == old(dirs) && catalog == old(catalog)
      ensures buckets == old(buckets)
    {
      var i := 0;
      while i < |puts|
        invariant 0 <= i <= FailIndex(puts, failing)
        invariant filer == Apply(old(filer), puts[..i])
        invariant uploads == old(uploads) && dirs == old(dirs) && catalog == old(catalog)
        invariant buckets == old(buckets)
      {
        if puts[i].key in failing {
          return false;
        }
        filer := filer[ObjectPath(puts[i].key) := puts[i].contentType];
        assert puts[..i + 1][..i] == puts[..i];
        i := i + 1;
      }
      return true;
    }

    /** The first four stages: transcode, preview generation, and the
        uploads of the preview tree and the rendition tree. */
    method TreeStages(id: string, thumb: UploadFile, env: Outcomes) returns (failure: Option<Stage>)
      modifies this
      ensures failure == PlanFor(id, thumb, env).TreeFailure(env)
      ensures filer == Apply(old(filer), PlanFor(id, thumb, env).TreeStored(env))
      ensures dirs == TreeDirs(old(dirs), id, env)
      ensures uploads == old(uploads) && catalog == old(catalog) && buckets == old(buckets)
    {
      var ok := Generate(HlsDir(id), env.transcode);
      if !ok {
        return Some(Transcode);
      }
      ok := Generate(PreviewHlsDir(id), env.previewHls);
      if !ok {
        return Some(PreviewGenerate);
      }
      var previewPuts := TreePuts(id, "preview", PreviewHlsDir(id), dirs[PreviewHlsDir(id)]);
      ok := UploadAll(previewPuts, env.failingKeys);
      if !ok {
        return Some(PreviewUpload);
      }
      var renditionPuts := TreePuts(id, "hls", HlsDir(id), dirs[HlsDir(id)]);
      ok := UploadAll(renditionPuts, env.failingKeys);
      ApplyAppend(old(filer), previewPuts, Stored(renditionPuts, env.failingKeys));
      if !ok {
        return Some(RenditionUpload);
      }
      return None;
    }

    /** The next three stages: sprite generation, the sprite uploads and
        the thumbnail upload. Also returns how many sprite files were
        found. */
    method MediaStages(id: string, thumb: UploadFile, env: Outcomes) returns (failure: Option<Stage>, spriteCount: nat)
      modifies this
      ensures failure == PlanFor(id, thumb, env).MediaFailure(env)
      ensures filer == Apply(old(filer), PlanFor(id, thumb, env).MediaStored(env))
      ensures dirs == old(dirs)[SpriteDir(id) := env.sprites.output]
      ensures spriteCount == |SpriteNames(env.sprites.output)|
      ensures uploads == old(uploads) && catalog == old(catalog) && buckets == old(buckets)
    {
      var ok := Generate(SpriteDir(id), env.sprites);
      if !ok {
        return Some(SpriteGenerate), |SpriteNames(env.sprites.output)|;
      }
      var spriteFiles := SpriteNames(dirs[SpriteDir(id)]);
      spriteCount := |spriteFiles|;
      var spritePuts := SpritePuts(id, SpriteDir(id), spriteFiles);
      ok := UploadAll(spritePuts, env.failingKeys);
      if !ok {
        return Some(SpriteUpload), spriteCount;
      }
      var ext := Extname(thumb.originalName);
      var thumbPut := Put(thumb.path, ThumbnailKey(id, ext), thumb.mimeType);
      ok := UploadAll([thumbPut], env.failingKeys);
      ApplyAppend(old(filer), spritePuts, Stored([thumbPut], env.failingKeys));
      if !ok {
        return Some(ThumbnailUpload), spriteCount;
      }
      return None, spriteCount;
    }

    /** The `try` block of the `/upload` handler: the stages in order, the
        first failure ending the request, the record written last. */
    method Pipeline(req: UploadRequest, id: string, now: int, env: Outcomes) returns (resp: UploadResponse)
      modifies this
      ensures resp == Outcome(req, id, now, env, old(catalog))
      ensures resp.FilesMissing? ==> filer == old(filer) && dirs == old(dirs)
      ensures !resp.FilesMissing? ==>
        var plan := PlanFor(id, req.thumbnail.value, env);
        && filer == Apply(old(filer), plan.StoredBy(env))
        && dirs == AfterGenerators(old(dirs), id, plan.TreeFailure(env), env)
      ensures resp.Created? ==> catalog == old(catalog)[id := resp.record]
      ensures !resp.Created? ==> catalog == old(catalog)
      ensures uploads == old(uploads) && buckets == old(buckets)
    {
      if req.video.None? || req.thumbnail.None? {
        return FilesMissing;
      }
      var thumb := req.thumbnail.value;
      ghost var plan := PlanFor(id, thumb, env);
      var failure := TreeStages(id, thumb, env);
      if failure.Some? {
        return UploadFailed(failure.value);
      }
      var spriteCount;
      failure, spriteCount := MediaStages(id, thumb, env);
      ApplyAppend(old(filer), plan.TreeStored(env), plan.MediaStored(env));
      if failure.Some? {
        return UploadFailed(failure.value);
      }
      if !env.createOk || id in catalog {
        return UploadFailed(CatalogCreate);
      }
      var record := RecordFor(id, req.title, req.description, Extname(thumb.originalName), spriteCount, now);
      catalog := catalog[id := record];
      return Created(record);
    }

    /** The first part of the `finally` block: unlink each temporary file
        that still exists. `ok` is false when the call numbered `fault`
        throws, which ends the cleanup. */
    method UnlinkTemps(video: Option<UploadFile>, thumb: Option<UploadFile>, fault: Option<nat>)
      returns (ok: bool, issued: nat)
      modifies this
      ensures var calls := UnlinkCalls(video, thumb, old(uploads));
        var n := Completed(calls, fault);
        && (ok <==> !(fault.Some? && fault.value < |calls|))
        && (ok ==> issued == |calls|)
        && uploads == old(uploads) - UnlinkedBy(calls[..n])
      ensures dirs == old(dirs) && filer == old(filer) && catalog == old(catalog) && buckets == old(buckets)
    {
      ghost var calls := UnlinkCalls(video, thumb, uploads);
      issued := 0;
      if video.Some? && video.value.path != "" && video.value.path in uploads {
        if fault == Some(issued) {
          return false, issued;
        }
        uploads := uploads - {video.value.path};
        issued := issued + 1;
      }
      assert uploads == old(uploads) - UnlinkedBy(calls[..issued]);
      if thumb.Some? && thumb.value.path != "" && thumb.value.path in uploads {
        if fault == Some(issued) {
          return false, issued;
        }
        uploads := uploads - {thumb.value.path};
        issued := issued + 1;
      }
      assert calls[..issued] == calls;
      return true, issued;
    }

    /** The rest of the `finally` block: if an id was assigned, force-remove
        its three output directories. `fault` counts from the first
        removal. */
    method RemoveWorkDirs(id: string, fault: Option<nat>)
      modifies this
      ensures var calls := RemoveCalls(id);
        dirs == old(dirs) - RemovedBy(calls[..Completed(calls, fault)])
      ensures uploads == old(uploads) && filer == old(filer) && catalog == old(catalog) && buckets == old(buckets)
    {
      ghost var calls := RemoveCalls(id);
      if id != "" {
        if fault == Some(0) {
          assert calls[..0] == [];
          return;
        }
        dirs := dirs - {HlsDir(id)};
        if fault == Some(1) {
          assert calls[..1] == [RemoveTree(HlsDir(id))];
          assert RemovedBy(calls[..1]) == {HlsDir(id)};
          return;
        }
        dirs := dirs - {PreviewHlsDir(id)};
        if fault == Some(2) {
          assert calls[..2] == [RemoveTree(HlsDir(id)), RemoveTree(PreviewHlsDir(id))];
          assert RemovedBy(calls[..2]) == {HlsDir(id), PreviewHlsDir(id)};
          return;
        }
        dirs := dirs - {SpriteDir(id)};
        assert calls[..3] == calls;
        assert RemovedBy(calls) == {HlsDir(id), PreviewHlsDir(id), SpriteDir(id)};
      }
    }

    /** The `finally` block: the unlinks, then the removals. The call
        numbered `fault` (if any) throws, which ends the cleanup; the
        exception is only logged. */
    method Cleanup(video: Option<UploadFile>, thumb: Option<UploadFile>, id: string, fault: Option<nat>)
      modifies this
      ensures var calls := CleanupCalls(video, thumb, id, old(uploads));
        var n := Completed(calls, fault);
        && uploads == old(uploads) - UnlinkedBy(calls[..n])
        && dirs == old(dirs) - RemovedBy(calls[..n])
      ensures filer == old(filer) && catalog == old(catalog) && buckets == old(buckets)
    {
      ghost var u := UnlinkCalls(video, thumb, uploads);
      ghost var r := RemoveCalls(id);
      ghost var calls := u + r;
      UnlinkCallsCover(video, thumb, uploads);
      RemoveCallsCover(id);
      var ok, issued := UnlinkTemps(video, thumb, fault);
      if !ok {
        CompletedBefore(u, r, fault);
        return;
      }
      RemoveWorkDirs(id, After(fault, issued));
      CompletedAfter(u, r, fault);
      CallsConcat(u, r[..Completed(r, After(fault, issued))]);
      assert u[..|u|] == u;
    }

    /** `POST /upload`: the pipeline, then the cleanup, which never changes
        the response. `newId` is the fresh ObjectId's text. */
    method HandleUpload(req: UploadRequest, newId: string, now: int, env: Outcomes) returns (resp: UploadResponse)
      requires IsCanonicalId(newId)
      modifies this
      ensures resp == Outcome(req, newId, now, env, old(catalog))
      ensures resp.FilesMissing? ==> filer == old(filer)
      ensures !resp.FilesMissing? ==>
        filer == Apply(old(filer), PlanFor(newId, req.thumbnail.value, env).StoredBy(env))
      ensures resp.Created? ==> catalog == old(catalog)[newId := resp.record]
      ensures !resp.Created? ==> catalog == old(catalog)
      ensures buckets == old(buckets)
      ensures uploads <= old(uploads) && old(uploads) - uploads <= TempPaths(req.video, req.thumbnail)
      ensures env.cleanupFault.None? ==> uploads == old(uploads) - TempPaths(req.video, req.thumbnail)
      ensures env.cleanupFault.None? ==>
        dirs == old(dirs) - (if resp.FilesMissing? then {} else WorkDirs(newId))
    {
      resp := Pipeline(req, newId, now, env);
      ghost var generated := dirs;
      var cleanupId := if resp.FilesMissing? then "" else newId;
      Cleanup(req.video, req.thumbnail, cleanupId, env.cleanupFault);
      ghost var calls := CleanupCalls(req.video, req.thumbnail, cleanupId, old(uploads));
      ghost var n := Completed(calls, env.cleanupFault);
      CleanupCallsCover(req.video, req.thumbnail, cleanupId, old(uploads));
      assert UnlinkedBy(calls[..n]) <= UnlinkedBy(calls);
      if env.cleanupFault.None? {
        assert calls[..n] == calls;
        if !resp.FilesMissing? {
          GeneratorsWriteWorkDirs(old(dirs), newId,
            PlanFor(newId, req.thumbnail.value, env).TreeFailure(env), env);
        }
      }
    }

    /** `deleteFromSeaweed(id)`: it never throws. */
    method DeleteFromStore(id: string, primaryOk: bool, fallbackOk: bool)
      modifies this
      ensures filer == StoreAfterDelete(old(filer), id, primaryOk, fallbackOk)
      ensures uploads == old(uploads) && dirs == old(dirs) && catalog == old(catalog)
      ensures buckets == old(buckets)
    {
      if id == "" {
        return;
      }
      if primaryOk {
        filer := RemoveDir(filer, PrimaryDir(id));
      } else if fallbackOk {
        filer := RemoveDir(filer, FallbackDir(id));
      }
    }

    /** `DELETE /videos/:id`: `findById` casts the id to an ObjectId, so
        the record is found by the id's value; an id that does not cast, or
        a failing lookup, rejects before the `try`. Otherwise 404 for an
        unknown id, or the stored objects first, then the record.
        `findOk` is whether the lookup's database call succeeds. */
    method DeleteVideo(id: string, findOk: bool, primaryOk: bool, fallbackOk: bool, deleteOk: bool)
      returns (resp: DeleteResponse)
      modifies this
      ensures !IsObjectIdText(id) || !findOk ==>
        resp == DeleteEscaped && filer == old(filer) && catalog == old(catalog)
      ensures IsObjectIdText(id) && findOk && CanonicalId(id) !in old(catalog) ==>
        resp == DeleteNotFound && filer == old(filer) && catalog == old(catalog)
      ensures IsObjectIdText(id) && findOk && CanonicalId(id) in old(catalog) ==>
        && (resp == Deleted <==> deleteOk) && (resp != Deleted ==> resp == DeleteFailed)
        && filer == StoreAfterDelete(old(filer), old(catalog)[CanonicalId(id)].id, primaryOk, fallbackOk)
      ensures resp == Deleted ==> catalog == old(catalog) - {CanonicalId(id)}
      ensures resp != Deleted ==> catalog == old(catalog)
      ensures uploads == old(uploads) && dirs == old(dirs) && buckets == old(buckets)
    {
      if !IsObjectIdText(id) || !findOk {
        return DeleteEscaped;
      }
      var key := CanonicalId(id);
      if key !in catalog {
        return DeleteNotFound;
      }
      DeleteFromStore(catalog[key].id, primaryOk, fallbackOk);
      if !deleteOk {
        return DeleteFailed;
      }
      catalog := catalog - {key};
      return Deleted;
    }
  }
}
