/** The pure part of the upload handler in backend/index.js: the recursive
    walk over a generated output directory, the object keys and content
    types the files are uploaded under, the sprite-file filter, the
    thumbnail extension, and the catalog record written at the end.

    Local paths are sequences of names: `path.join(dir, f)` is `dir + [f]`
    and the string form of a path joins its names with '/', as Node does on
    POSIX. */
module Artifacts {
  import opened Wrappers
  import opened Text

  type Name = string
  type Path = seq<Name>

  /** A directory entry as `fs.readdirSync` lists it, with
      `fs.statSync(p).isDirectory()` already decided. */
  datatype Entry = File(name: Name) | Dir(name: Name, entries: seq<Entry>)

  /** `f.startsWith(".")` */
  predicate Hidden(name: Name) {
    StartsWith(name, ".")
  }

  // ---------------------------------------------------------------------
  // walk(dir)

  /** `walk(dir)`: the paths of the listing's non-hidden entries in order,
      each directory replaced by its own walk. Every path it returns lies
      strictly below `dir`. */
  function Walk(dir: Path, listing: seq<Entry>): (files: seq<Path>)
    ensures forall i :: 0 <= i < |files| ==> |files[i]| > |dir| && files[i][..|dir|] == dir
    decreases listing, 1
  {
    if |listing| == 0 then [] else WalkEntry(dir, listing[0]) + Walk(dir, listing[1..])
  }

  /** The `flatMap` step for one entry of `dir`: nothing for a hidden name,
      the path itself for a file, the directory's walk otherwise. */
  function WalkEntry(dir: Path, e: Entry): (files: seq<Path>)
    ensures forall i :: 0 <= i < |files| ==> |files[i]| > |dir| && files[i][..|dir|] == dir
    decreases e, 0
  {
    if Hidden(e.name) then []
    else match e
      case File(n) => [dir + [n]]
      case Dir(n, children) =>
        var below := Walk(dir + [n], children);
        assert forall i :: 0 <= i < |below| ==> below[i][..|dir|] == (dir + [n])[..|dir|];
        below
  }

  /** `rel` leads, through names that are not hidden, from a directory with
      this listing to an entry that is not a directory. */
  ghost predicate Reaches(listing: seq<Entry>, rel: Path)
    decreases listing, 1
  {
    exists i :: 0 <= i < |listing| && EntryReaches(listing[i], rel)
  }

  ghost predicate EntryReaches(e: Entry, rel: Path)
    decreases e, 0
  {
    |rel| >= 1 && rel[0] == e.name && !Hidden(e.name) &&
    match e
    case File(_) => |rel| == 1
    case Dir(_, children) => |rel| >= 2 && Reaches(children, rel[1..])
  }

  /** `rel` leads, through names that are not hidden, to a directory. */
  ghost predicate ReachesDir(listing: seq<Entry>, rel: Path)
    decreases listing, 1
  {
    exists i :: 0 <= i < |listing| && EntryReachesDir(listing[i], rel)
  }

  ghost predicate EntryReachesDir(e: Entry, rel: Path)
    decreases e, 0
  {
    |rel| >= 1 && rel[0] == e.name && !Hidden(e.name) && e.Dir? &&
    (|rel| == 1 || ReachesDir(e.entries, rel[1..]))
  }

  /** A listing as a file system gives it: the names in one directory are
      distinct, and so on all the way down. */
  ghost predicate WellFormed(listing: seq<Entry>)
    decreases listing
  {
    && (forall i, j :: 0 <= i < j < |listing| ==> listing[i].name != listing[j].name)
    && (forall i :: 0 <= i < |listing| && listing[i].Dir? ==> WellFormed(listing[i].entries))
  }

  lemma ReachesCons(listing: seq<Entry>, rel: Path)
    requires |listing| > 0
    ensures Reaches(listing, rel) <==> EntryReaches(listing[0], rel) || Reaches(listing[1..], rel)
  {
    if Reaches(listing, rel) {
      var i :| 0 <= i < |listing| && EntryReaches(listing[i], rel);
      if i > 0 {
        assert listing[1..][i - 1] == listing[i];
      }
    }
    if Reaches(listing[1..], rel) {
      var i :| 0 <= i < |listing[1..]| && EntryReaches(listing[1..][i], rel);
      assert listing[i + 1] == listing[1..][i];
    }
  }

  /** `walk(root)` returns exactly the paths below `root` that reach a
      non-directory entry through names that do not start with "." */
  lemma {:induction false} WalkExactly(dir: Path, listing: seq<Entry>, p: Path)
    ensures p in Walk(dir, listing) <==>
      |p| > |dir| && p[..|dir|] == dir && Reaches(listing, p[|dir|..])
    decreases listing, 1
  {
    if |listing| > 0 && |p| > |dir| && p[..|dir|] == dir {
      ReachesCons(listing, p[|dir|..]);
      WalkEntryExactly(dir, listing[0], p);
      WalkExactly(dir, listing[1..], p);
    }
  }

  lemma {:induction false} WalkEntryExactly(dir: Path, e: Entry, p: Path)
    requires |p| > |dir| && p[..|dir|] == dir
    ensures p in WalkEntry(dir, e) <==> EntryReaches(e, p[|dir|..])
    decreases e, 0
  {
    var rel := p[|dir|..];
    assert p == dir + rel;
    if !Hidden(e.name) {
      match e
      case File(n) =>
        assert EntryReaches(e, rel) <==> rel == [n];
      case Dir(n, children) =>
        assert rel[1..] == p[|dir| + 1..];
        if |p| > |dir| + 1 {
          assert p[..|dir| + 1] == dir + [n] <==> rel[0] == n;
          if rel[0] == n {
            WalkExactly(dir + [n], children, p);
          }
        }
    }
  }

  /** In a well-formed tree, a path that reaches a file does not also reach
      a directory: `walk` never returns a directory. */
  lemma {:induction false} FileIsNotDir(listing: seq<Entry>, rel: Path)
    requires WellFormed(listing)
    requires Reaches(listing, rel)
    ensures !ReachesDir(listing, rel)
    decreases listing
  {
    var i :| 0 <= i < |listing| && EntryReaches(listing[i], rel);
    if ReachesDir(listing, rel) {
      var j :| 0 <= j < |listing| && EntryReachesDir(listing[j], rel);
      assert listing[i].name == listing[j].name;
      assert i == j;
      var e := listing[i];
      FileIsNotDir(e.entries, rel[1..]);
      assert false;
    }
  }

  /** Every path `walk` returns names a file, never a directory. */
  lemma WalkReturnsNoDirectory(dir: Path, listing: seq<Entry>, p: Path)
    requires WellFormed(listing)
    requires p in Walk(dir, listing)
    ensures Reaches(listing, p[|dir|..]) && !ReachesDir(listing, p[|dir|..])
  {
    WalkExactly(dir, listing, p);
    FileIsNotDir(listing, p[|dir|..]);
  }

  // ---------------------------------------------------------------------
  // Object keys and content types

  const BucketName := "hls-videos"
  const PlaylistType := "application/vnd.apple.mpegurl"
  const SegmentType := "video/MP2T"
  const JpegType := "image/jpeg"

  /** A local path as the string Node passes around. */
  function PathString(p: Path): string {
    Join(p, '/')
  }

  /** `path.relative(root, file).replace(/\\/g, "/")` for a file below root. */
  function RelativeKey(rel: Path): string {
    ReplaceChar(Join(rel, '/'), '\\', '/')
  }

  /** `${videoId}/${namespace}/${rel}` */
  function TreeKey(id: string, namespace: string, rel: Path): string {
    id + "/" + namespace + "/" + RelativeKey(rel)
  }

  /** The content type chosen for an uploaded tree file. */
  function ContentTypeOf(file: string): (t: string)
    ensures t == PlaylistType <==> EndsWith(file, ".m3u8")
    ensures t == PlaylistType || t == SegmentType
  {
    if EndsWith(file, ".m3u8") then PlaylistType else SegmentType
  }

  /** A name as a file system allows it inside a directory: not empty, and
      free of both path separators. */
  predicate PlainName(n: Name) {
    |n| > 0 && '/' !in n && '\\' !in n
  }

  /** The content type depends only on the file's own name, not on the
      directories above it. */
  lemma {:induction false} ContentTypeByName(p: Path)
    requires |p| >= 2
    requires forall i :: 0 <= i < |p| ==> PlainName(p[i])
    ensures ContentTypeOf(PathString(p)) == PlaylistType <==> EndsWith(p[|p| - 1], ".m3u8")
  {
    var j := PathString(p);
    var last := p[|p| - 1];
    JoinEndsWithLast(p, '/');
    if |last| >= 5 {
      assert j[|j| - 5..] == last[|last| - 5..];
    } else if |j| >= 5 {
      assert j[|j| - 5..][4 - |last|] == '/';
    }
  }

  lemma {:induction false} JoinNoSeparator(parts: seq<string>, sep: char, c: char)
    requires c != sep
    requires forall i :: 0 <= i < |parts| ==> c !in parts[i]
    ensures c !in Join(parts, sep)
  {
    if |parts| > 1 {
      JoinNoSeparator(parts[1..], sep, c);
    }
  }

  lemma ReplaceAbsent(s: string, from: char, to: char)
    requires from !in s
    ensures ReplaceChar(s, from, to) == s
  {
  }

  /** For plain names the key is the names joined with '/'. */
  lemma {:induction false} TreeKeyIsJoin(id: string, ns: string, rel: Path)
    requires |rel| >= 1
    requires forall i :: 0 <= i < |rel| ==> PlainName(rel[i])
    ensures TreeKey(id, ns, rel) == Join([id, ns] + rel, '/')
  {
    JoinNoSeparator(rel, '/', '\\');
    var j := Join(rel, '/');
    ReplaceAbsent(j, '\\', '/');
    var tail := [ns] + rel;
    assert tail[1..] == rel;
    assert Join(tail, '/') == ns + ['/'] + j;
    var parts := [id, ns] + rel;
    assert parts == [id] + tail;
    assert parts[1..] == tail;
    assert Join(parts, '/') == id + ['/'] + (ns + ['/'] + j);
    assert RelativeKey(rel) == j;
    assert TreeKey(id, ns, rel) == id + ['/'] + (ns + ['/'] + j);
  }

  /** Tree keys never collide: files at different relative paths, or in
      different namespaces, land at different keys. */
  lemma TreeKeyInjective(id: string, ns1: string, rel1: Path, ns2: string, rel2: Path)
    requires PlainName(id) && PlainName(ns1) && PlainName(ns2)
    requires |rel1| >= 1 && |rel2| >= 1
    requires forall i :: 0 <= i < |rel1| ==> PlainName(rel1[i])
    requires forall i :: 0 <= i < |rel2| ==> PlainName(rel2[i])
    requires TreeKey(id, ns1, rel1) == TreeKey(id, ns2, rel2)
    ensures ns1 == ns2 && rel1 == rel2
  {
    TreeKeyIsJoin(id, ns1, rel1);
    TreeKeyIsJoin(id, ns2, rel2);
    var parts1 := [id, ns1] + rel1;
    var parts2 := [id, ns2] + rel2;
    SplitJoin(parts1, '/');
    SplitJoin(parts2, '/');
    assert parts1 == parts2;
    assert rel1 == parts1[2..] && rel2 == parts2[2..];
  }

  /** A file at the root of a tree is keyed by its name alone. */
  lemma TreeKeyOfName(id: string, ns: string, n: Name)
    requires '\\' !in n
    ensures TreeKey(id, ns, [n]) == id + "/" + ns + "/" + n
  {
    ReplaceAbsent(n, '\\', '/');
  }

  /** One object-store write: local file, key, content type. */
  datatype Put = Put(localPath: string, key: string, contentType: string)

  /** The upload of one walked file `file` of the tree rooted at `root`. */
  function TreePut(id: string, namespace: string, root: Path, file: Path): (put: Put)
    requires |root| <= |file|
    ensures put.localPath == PathString(file)
    ensures put.key == TreeKey(id, namespace, file[|root|..])
  {
    Put(PathString(file), TreeKey(id, namespace, file[|root|..]), ContentTypeOf(PathString(file)))
  }

  /** The `for (const file of walk(root))` upload loop's writes, in order. */
  function TreePuts(id: string, namespace: string, root: Path, listing: seq<Entry>): (puts: seq<Put>)
    ensures var files := Walk(root, listing);
      |puts| == |files| &&
      forall i :: 0 <= i < |puts| ==> puts[i] == TreePut(id, namespace, root, files[i])
  {
    var files := Walk(root, listing);
    seq(|files|, i requires 0 <= i < |files| => TreePut(id, namespace, root, files[i]))
  }

  /** The root playlists' names are not hidden. */
  lemma PlaylistNamesShown()
    ensures !Hidden("index.m3u8") && !Hidden("master.m3u8")
  {
    assert "index.m3u8"[0] != '.';
    assert "master.m3u8"[0] != '.';
  }

  /** A file the tool leaves at the root of its output directory, under a
      name that is not hidden, is uploaded under its name's tree key. */
  lemma RootFileUploaded(id: string, namespace: string, root: Path, listing: seq<Entry>, n: Name)
    requires File(n) in listing && !Hidden(n)
    ensures var puts := TreePuts(id, namespace, root, listing);
      exists j :: 0 <= j < |puts| && puts[j].key == TreeKey(id, namespace, [n])
  {
    var i :| 0 <= i < |listing| && listing[i] == File(n);
    var p := root + [n];
    assert p[|root|..] == [n];
    assert EntryReaches(listing[i], [n]);
    WalkExactly(root, listing, p);
    var files := Walk(root, listing);
    var j :| 0 <= j < |files| && files[j] == p;
    assert TreePuts(id, namespace, root, listing)[j].key == TreeKey(id, namespace, [n]);
  }

  // ---------------------------------------------------------------------
  // Sprites

  /** `f.startsWith("preview_") && f.endsWith(".jpg")` */
  predicate IsSpriteName(n: Name) {
    StartsWith(n, "preview_") && EndsWith(n, ".jpg")
  }

  /** `fs.readdirSync(previewSpriteDir).filter(...)`: the names of the
      listed entries that are sprite names, in listing order. */
  function SpriteNames(listing: seq<Entry>): (names: seq<Name>)
    ensures |names| <= |listing|
    ensures forall n :: n in names <==> IsSpriteName(n) && exists e :: e in listing && e.name == n
  {
    if |listing| == 0 then []
    else
      var rest := SpriteNames(listing[1..]);
      assert forall e :: e in listing[1..] ==> e in listing;
      assert forall e :: e in listing ==> e == listing[0] || e in listing[1..];
      if IsSpriteName(listing[0].name) then [listing[0].name] + rest else rest
  }

  /** `${videoId}/preview/${file}` */
  function SpriteKey(id: string, name: Name): string {
    id + "/preview/" + name
  }

  function SpritePut(id: string, spriteDir: Path, name: Name): (put: Put)
    ensures put.contentType == JpegType
  {
    Put(PathString(spriteDir + [name]), SpriteKey(id, name), JpegType)
  }

  function SpritePuts(id: string, spriteDir: Path, names: seq<Name>): (puts: seq<Put>)
    ensures |puts| == |names|
    ensures forall i :: 0 <= i < |names| ==> puts[i] == SpritePut(id, spriteDir, names[i])
  {
    seq(|names|, i requires 0 <= i < |names| => SpritePut(id, spriteDir, names[i]))
  }

  // ---------------------------------------------------------------------
  // Thumbnail

  /** The index of the last `c` in `s`, or -1. */
  function LastIndexOf(s: string, c: char): (k: int)
    ensures -1 <= k < |s|
    ensures k >= 0 ==> s[k] == c && c !in s[k + 1..]
    ensures k == -1 <==> c !in s
  {
    if |s| == 0 then -1
    else if s[|s| - 1] == c then |s| - 1
    else
      var k := LastIndexOf(s[..|s| - 1], c);
      assert s == s[..|s| - 1] + [s[|s| - 1]];
      k
  }

  /** The last segment of a path: `path.basename(name)` for a name
      without trailing '/'. */
  function Basename(name: string): (base: string)
    ensures '/' !in base && EndsWith(name, base)
    ensures |base| == |name| || name[|name| - |base| - 1] == '/'
  {
    var k := LastIndexOf(name, '/');
    assert name[|name| - |name[k + 1..]|..] == name[k + 1..];
    name[k + 1..]
  }

  /** The segment "..", the parent directory. */
  predicate IsDotDot(base: string) {
    |base| == 2 && base[0] == '.' && base[1] == '.'
  }

  /** The extension of one path segment: from its last '.', unless that
      dot starts the segment or the segment is "..". */
  function SegmentExt(base: string): (ext: string)
    ensures ext == "" || (ext[0] == '.' && EndsWith(base, ext) && '.' !in ext[1..])
  {
    var d := LastIndexOf(base, '.');
    if d <= 0 || IsDotDot(base) then ""
    else
      assert base[d..][1..] == base[d + 1..];
      assert base[|base| - |base[d..]|..] == base[d..];
      base[d..]
  }

  /** `path.extname(name)` on POSIX for a name without trailing '/': the
      extension of its last segment. */
  function Extname(name: string): (ext: string)
    ensures ext == "" || (ext[0] == '.' && EndsWith(name, ext) && '.' !in ext[1..] && '/' !in ext)
  {
    var base := name[LastIndexOf(name, '/') + 1..];
    assert name[|name| - |base|..] == base;
    var ext := SegmentExt(base);
    EndsWithTrans(name, base, ext);
    ext
  }

  /** The extension is empty exactly when the last segment is ".." or
      has no '.' after its first character; otherwise it is that
      segment's end from its last '.'. */
  lemma ExtnameIff(name: string)
    ensures var base := Basename(name);
      Extname(name) != "" <==> !IsDotDot(base) && exists k :: 0 < k < |base| && base[k] == '.'
    ensures Extname(name) != "" ==> EndsWith(Basename(name), Extname(name))
  {
    var base := Basename(name);
    assert Extname(name) == SegmentExt(base);
    var d := LastIndexOf(base, '.');
    if d <= 0 {
      NoLaterDot(base);
    } else if !IsDotDot(base) {
      assert base[d] == '.';
    }
  }

  lemma NoLaterDot(base: string)
    requires LastIndexOf(base, '.') <= 0
    ensures forall k :: 0 < k < |base| ==> base[k] != '.'
  {
    var d := LastIndexOf(base, '.');
    forall k | 0 < k < |base|
      ensures base[k] != '.'
    {
      if d == 0 {
        assert base[k] in base[d + 1..];
      } else {
        assert base[k] in base;
      }
    }
  }

  /** `${videoId}/thumbnail${ext}` */
  function ThumbnailKey(id: string, ext: string): string {
    id + "/thumbnail" + ext
  }

  // ---------------------------------------------------------------------
  // The catalog record

  /** Where the filer serves the bucket's objects. */
  const PublicBase := "http://localhost:8888/buckets/" + BucketName + "/"

  /** ffmpeg samples one sprite frame every this many seconds
      (`generatePreviewSprites(video.path, previewSpriteDir, 5)`). */
  const SpriteInterval := 5

  datatype PreviewMeta = PreviewMeta(
    spriteBaseUrl: string,
    frameInterval: int,
    spriteCount: int,
    cols: int,
    rows: int,
    frameWidth: int,
    frameHeight: int)

  /** A `VideoDb` document. Title and description are absent when the
      request body lacks them; mongoose trims them when present. */
  datatype Record = Record(
    id: string,
    title: Option<string>,
    description: Option<string>,
    previewPath: string,
    videoPath: string,
    thumbnailPath: string,
    preview: PreviewMeta,
    createdAt: int,
    updatedAt: int)

  /** The `preview` object as backend/index.js writes it: interval 2,
      although the sprites were sampled every `SpriteInterval` seconds. */
  function PreviewMetaAsWritten(id: string, spriteCount: nat): (m: PreviewMeta)
    ensures m.frameInterval == 2 && m.spriteCount == spriteCount
    ensures m.cols == 5 && m.rows == 5 && m.frameWidth == 160 && m.frameHeight == 90
    ensures forall n :: m.spriteBaseUrl + "/" + n == PublicBase + SpriteKey(id, n)
  {
    PreviewMeta(PublicBase + id + "/preview", 2, spriteCount, 5, 5, 160, 90)
  }

  /** The recorded interval does not describe the sprites it points at. */
  lemma RecordedIntervalIsNotSamplingInterval(id: string, spriteCount: nat)
    ensures PreviewMetaAsWritten(id, spriteCount).frameInterval != SpriteInterval
  {
  }

  /** The `preview` object with the interval the sprites were sampled at;
      the rest is as written: a 5 x 5 grid of 160 x 90 frames, the count of
      sprite files found, and a base URL under which each sprite's key is
      served. */
  function PreviewMetaFor(id: string, spriteCount: nat): (m: PreviewMeta)
    ensures m.frameInterval == SpriteInterval && m.spriteCount == spriteCount
    ensures m.cols == 5 && m.rows == 5 && m.frameWidth == 160 && m.frameHeight == 90
    ensures forall n :: m.spriteBaseUrl + "/" + n == PublicBase + SpriteKey(id, n)
  {
    PreviewMeta(PublicBase + id + "/preview", SpriteInterval, spriteCount, 5, 5, 160, 90)
  }

  /** The two differ only in the interval. */
  lemma PreviewMetaCorrection(id: string, spriteCount: nat)
    ensures PreviewMetaFor(id, spriteCount) ==
      PreviewMetaAsWritten(id, spriteCount).(frameInterval := SpriteInterval)
  {
  }

  /** `trim: true` in the mongoose schema. */
  function Trimmed(s: Option<string>): Option<string> {
    match s
    case None => None
    case Some(t) => Some(Trim(t))
  }

  /** `VideoDb.create({...})`: the document for video `id` as the handler
      writes it, created and last updated at the moment of the insert,
      with the preview metadata as written. */
  function RecordFor(id: string, title: Option<string>, description: Option<string>,
                     ext: string, spriteCount: nat, now: int): (r: Record)
    ensures r.id == id && r.createdAt == now && r.updatedAt == now
    ensures r.preview == PreviewMetaAsWritten(id, spriteCount)
    ensures r.preview.frameInterval != SpriteInterval
  {
    Record(
      id,
      Trimmed(title),
      Trimmed(description),
      PublicBase + id + "/preview/index.m3u8",
      PublicBase + id + "/hls/master.m3u8",
      PublicBase + id + "/thumbnail" + ext,
      PreviewMetaAsWritten(id, spriteCount),
      now,
      now)
  }

  /** The record with the interval the sprites were sampled at. */
  function CorrectedRecordFor(id: string, title: Option<string>, description: Option<string>,
                              ext: string, spriteCount: nat, now: int): (r: Record)
    ensures r.preview == PreviewMetaFor(id, spriteCount)
  {
    RecordFor(id, title, description, ext, spriteCount, now).(preview := PreviewMetaFor(id, spriteCount))
  }

  /** The corrected record differs from the written one in the preview's
      interval only, which becomes the sampling interval. */
  lemma RecordCorrection(id: string, title: Option<string>, description: Option<string>,
                         ext: string, spriteCount: nat, now: int)
    ensures var w := RecordFor(id, title, description, ext, spriteCount, now);
      CorrectedRecordFor(id, title, description, ext, spriteCount, now) ==
        w.(preview := w.preview.(frameInterval := SpriteInterval))
  {
    PreviewMetaCorrection(id, spriteCount);
  }

  lemma PlaylistUrls(id: string)
    ensures PublicBase + id + "/preview/index.m3u8" == PublicBase + TreeKey(id, "preview", ["index.m3u8"])
    ensures PublicBase + id + "/hls/master.m3u8" == PublicBase + TreeKey(id, "hls", ["master.m3u8"])
  {
    TreeKeyOfName(id, "preview", "index.m3u8");
    TreeKeyOfName(id, "hls", "master.m3u8");
  }

  /** Every URL the record holds is the public address of a key the
      pipeline uploads: the preview playlist and the master playlist at the
      root of their trees, the thumbnail under the same extension as its
      key, and each sprite under the sprite base URL. */
  lemma RecordAddressesKeys(id: string, title: Option<string>, description: Option<string>,
                            ext: string, spriteCount: nat, now: int)
    ensures var r := RecordFor(id, title, description, ext, spriteCount, now);
      && r.previewPath == PublicBase + TreeKey(id, "preview", ["index.m3u8"])
      && r.videoPath == PublicBase + TreeKey(id, "hls", ["master.m3u8"])
      && r.thumbnailPath == PublicBase + ThumbnailKey(id, ext)
      && forall n :: r.preview.spriteBaseUrl + "/" + n == PublicBase + SpriteKey(id, n)
  {
    var r := RecordFor(id, title, description, ext, spriteCount, now);
    PlaylistUrls(id);
    assert r.thumbnailPath == PublicBase + id + "/thumbnail" + ext;
    assert PublicBase + id + "/thumbnail" + ext == PublicBase + ThumbnailKey(id, ext);
  }
}
