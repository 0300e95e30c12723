/** The route logic of minimalApi/Program.cs over an in-memory collection.

    The collection is a `Collection` object holding its documents in
    natural (insertion) order. What the Mongo driver does is given as
    outcomes: whether the database call throws, the id an insert assigns,
    and which documents the text index matches. `Id` is mapped with the
    ObjectId representation, so a route id is converted to an ObjectId
    before it is compared: documents are found by the value of their id,
    and the stored ids are the lower-case text ObjectIds read back as. */
module MinimalApi {
  import opened Wrappers
  import opened Text
  import opened Models
  import opened Validators
  import opened ObjectIds

  // ---------------------------------------------------------------------
  // The `/videos` listing

  datatype PreviewDto = PreviewDto(
    spriteBaseUrl: string,
    frameInterval: int,
    spriteCount: int,
    cols: int,
    rows: int,
    frameWidth: int,
    frameHeight: int)

  datatype VideoDto = VideoDto(
    id: Option<string>,
    title: Option<string>,
    description: Option<string>,
    preview: Option<PreviewDto>,
    updatedAt: int,
    createdAt: int)

  /** `new VideosPreviewDto(p.SpriteBaseUrl ?? "", ...)` */
  function ToPreviewDto(p: VideoPreview): PreviewDto {
    PreviewDto(p.spriteBaseUrl.GetOr(""), p.frameInterval, p.spriteCount, p.cols, p.rows,
               p.frameWidth, p.frameHeight)
  }

  /** One element of the `Select`: a null preview stays null. */
  function ToDto(v: Video): VideoDto {
    VideoDto(v.id, v.title, v.description,
             if v.preview.Some? then Some(ToPreviewDto(v.preview.value)) else None,
             v.updatedAt, v.createdAt)
  }

  /** `videos.Select(...)`: one DTO per document, in collection order. */
  function ToDtos(videos: seq<Video>): (dtos: seq<VideoDto>)
    ensures |dtos| == |videos|
    ensures forall i :: 0 <= i < |videos| ==> dtos[i] == ToDto(videos[i])
  {
    seq(|videos|, i requires 0 <= i < |videos| => ToDto(videos[i]))
  }

  /** What the listing keeps of a document: the three paths are dropped and
      a null base URL reads as "". */
  function Listed(v: Video): Video {
    var p := if v.preview.Some? then
               var q := v.preview.value;
               Some(q.(spriteBaseUrl := Some(q.spriteBaseUrl.GetOr(""))))
             else None;
    v.(thumbnailPath := None, videoPath := None, previewPath := None, preview := p)
  }

  /** Two documents list alike exactly when they agree on everything the
      listing keeps: every other member is copied unchanged. */
  lemma ToDtoKeeps(a: Video, b: Video)
    ensures ToDto(a) == ToDto(b) <==> Listed(a) == Listed(b)
  {
    if ToDto(a) == ToDto(b) && a.preview.Some? {
      var p, q := a.preview.value, b.preview.value;
      assert ToPreviewDto(p) == ToPreviewDto(q);
      assert p.spriteBaseUrl.GetOr("") == q.spriteBaseUrl.GetOr("");
    }
  }

  // ---------------------------------------------------------------------
  // Ids and lookups

  /** The position of the document whose id is the text `id`, if any;
      the routes look up the converted id. */
  function Find(docs: seq<Video>, id: string): (r: Option<nat>)
    ensures r.None? <==> forall i :: 0 <= i < |docs| ==> docs[i].id != Some(id)
    ensures r.Some? ==> r.value < |docs| && docs[r.value].id == Some(id)
  {
    if |docs| == 0 then None
    else if docs[|docs| - 1].id == Some(id) then Some(|docs| - 1)
    else Find(docs[..|docs| - 1], id)
  }

  /** The collection's invariant: every document has an ObjectId, and no two
      share one. */
  predicate WellKeyed(docs: seq<Video>) {
    && (forall i :: 0 <= i < |docs| ==> docs[i].id.Some? && IsCanonicalId(docs[i].id.value))
    && (forall i, j :: 0 <= i < j < |docs| ==> docs[i].id != docs[j].id)
  }

  /** In a well-keyed collection only an ObjectId can be found. */
  lemma FoundIdsAreObjectIds(docs: seq<Video>, id: string)
    requires WellKeyed(docs)
    requires !IsObjectIdText(id)
    ensures Find(docs, id).None?
  {
  }

  /** The routes find a document by the value of the route id: two texts
      of the same ObjectId, in whatever case, find the same document. */
  lemma LookupByValue(docs: seq<Video>, a: string, b: string)
    requires IsObjectIdText(a) && IsObjectIdText(b)
    ensures SameObjectIdText(a, b) <==> CanonicalId(a) == CanonicalId(b)
    ensures SameObjectIdText(a, b) ==> Find(docs, CanonicalId(a)) == Find(docs, CanonicalId(b))
  {
    SameObjectId(a, b);
  }

  /** Removing the document found for `id` leaves no document with that id
      and keeps the others in order. */
  lemma RemoveFound(docs: seq<Video>, id: string, i: nat)
    requires WellKeyed(docs) && Find(docs, id) == Some(i)
    ensures var rest := docs[..i] + docs[i + 1..];
      WellKeyed(rest) && Find(rest, id).None? && |rest| == |docs| - 1
  {
    var rest := docs[..i] + docs[i + 1..];
    assert forall k :: 0 <= k < |rest| ==> rest[k] == (if k < i then docs[k] else docs[k + 1]);
  }

  // ---------------------------------------------------------------------
  // Search

  predicate NewestFirst(vs: seq<Video>) {
    forall i, j :: 0 <= i < j < |vs| ==> vs[i].createdAt >= vs[j].createdAt
  }

  /** `v` inserted into a newest-first sequence, after every document at
      least as new. */
  function Insert(v: Video, vs: seq<Video>): (r: seq<Video>)
    requires NewestFirst(vs)
    ensures NewestFirst(r)
    ensures multiset(r) == multiset(vs) + multiset{v}
    ensures r[0] == if |vs| > 0 && vs[0].createdAt >= v.createdAt then vs[0] else v
  {
    if |vs| == 0 then [v]
    else if vs[0].createdAt >= v.createdAt then
      var rest := Insert(v, vs[1..]);
      assert vs == [vs[0]] + vs[1..];
      PrependNewest(vs[0], rest);
      [vs[0]] + rest
    else
      PrependNewest(v, vs);
      [v] + vs
  }

  lemma PrependNewest(u: Video, vs: seq<Video>)
    requires NewestFirst(vs)
    requires |vs| > 0 ==> u.createdAt >= vs[0].createdAt
    ensures NewestFirst([u] + vs)
  {
  }

  /** `.SortByDescending(v => v.CreatedAt)` */
  function SortNewestFirst(vs: seq<Video>): (r: seq<Video>)
    ensures NewestFirst(r)
    ensures multiset(r) == multiset(vs)
  {
    if |vs| == 0 then []
    else
      assert vs == [vs[0]] + vs[1..];
      Insert(vs[0], SortNewestFirst(vs[1..]))
  }

  /** The documents the text index matches, in collection order. */
  function Matching(docs: seq<Video>, hits: set<string>): (r: seq<Video>)
    ensures forall v :: v in r <==> v in docs && v.id.Some? && v.id.value in hits
    ensures |r| <= |docs|
  {
    if |docs| == 0 then []
    else
      var rest := Matching(docs[..|docs| - 1], hits);
      var v := docs[|docs| - 1];
      assert docs == docs[..|docs| - 1] + [v];
      if v.id.Some? && v.id.value in hits then rest + [v] else rest
  }

  /** `string.IsNullOrWhiteSpace(q)` */
  predicate BlankQuery(q: Option<string>) {
    q.None? || AllNetWhiteSpace(q.value)
  }

  // ---------------------------------------------------------------------
  // Responses

  datatype Response =
    | Listing(dtos: seq<VideoDto>)               // 200 from GET /videos
    | Found(video: Video)                        // 200 from GET /videos/{id}
    | SearchHits(videos: seq<Video>)             // 200 { success, data } from GET /search
    | CreatedAt(location: string, video: Video)  // 201 from POST /videos
    | Replaced(video: Video)                     // 200 from PUT /videos/{id}
    | NoContent                                  // 204 from DELETE /videos/{id}
    | NotFound(detail: Option<string>)          // 404, with a body from DELETE
    | BadRequest(message: string)
    | Problem                                    // 500 from a caught MongoException
    | Unhandled                                  // 500 from an exception the route lets escape

  /** What POST stores: the body with the assigned id and both clock
      readings. */
  function Stamped(body: Video, id: string, createdAt: int, updatedAt: int): Video {
    body.(id := Some(id), createdAt := createdAt, updatedAt := updatedAt)
  }

  /** The validator looks at neither the id nor the timestamps, so the
      stamping of POST and PUT never turns an invalid body into a valid
      document: the routes store whatever the body holds. */
  lemma StampingKeepsValidity(body: Video, id: string, createdAt: int, updatedAt: int)
    ensures IsValid(Stamped(body, id, createdAt, updatedAt)) <==> IsValid(body)
    ensures IsValid(body.(id := Some(id), updatedAt := updatedAt)) <==> IsValid(body)
  {
    ValidIff(body);
    ValidIff(Stamped(body, id, createdAt, updatedAt));
    ValidIff(body.(id := Some(id), updatedAt := updatedAt));
  }

  /** A body the validator rejects on every rule. */
  function EmptyBody(): Video {
    Video(None, None, None, 0, 0, None, None, None, None)
  }

  lemma EmptyBodyIsInvalid()
    ensures !IsValid(EmptyBody())
    ensures FailingMembers(EmptyBody()) == {Title, Description, ThumbnailPath, VideoPath, PreviewPath}
  {
    ValidIff(EmptyBody());
  }

  // ---------------------------------------------------------------------
  // The collection and its routes

  class Collection {
    /** The documents, in natural order. */
    var docs: seq<Video>

    ghost predicate Valid()
      reads this
    {
      WellKeyed(docs)
    }

    constructor()
      ensures Valid() && docs == []
    {
      docs := [];
    }

    /** `GET /videos` */
    method ListVideos(dbOk: bool) returns (resp: Response)
      ensures dbOk ==> resp == Listing(ToDtos(docs))
      ensures !dbOk ==> resp == Problem
    {
      if !dbOk {
        return Problem;
      }
      return Listing(ToDtos(docs));
    }

    /** `GET /videos/{id}`: the length check comes before any lookup; a
        24-character id that is not hexadecimal fails in the driver's
        conversion, which throws a `FormatException` the route does not
        catch. */
    method GetVideo(id: string, dbOk: bool) returns (resp: Response)
      requires Valid()
      ensures |id| != 24 ==> resp == BadRequest("Invalid ID fromat.")
      ensures |id| == 24 && !IsObjectIdText(id) ==> resp == Unhandled
      ensures IsObjectIdText(id) && !dbOk ==> resp == Problem
      ensures IsObjectIdText(id) && dbOk ==>
        match Find(docs, CanonicalId(id))
        case None => resp == NotFound(None) && forall v :: v in docs ==> v.id != Some(CanonicalId(id))
        case Some(i) => resp == Found(docs[i]) && SameObjectIdText(docs[i].id.value, id)
    {
      if |id| != 24 {
        return BadRequest("Invalid ID fromat.");
      }
      if !IsObjectIdText(id) {
        return Unhandled;
      }
      if !dbOk {
        return Problem;
      }
      var i := Find(docs, CanonicalId(id));
      if i.None? {
        return NotFound(None);
      }
      CanonicalIdFixed(docs[i.value].id.value);
      SameObjectId(docs[i.value].id.value, id);
      return Found(docs[i.value]);
    }

    /** `GET /search?q=`: a blank query is refused; otherwise the matches,
        newest first. `hits` are the ids the text index matches for `q`.
        The route catches nothing. */
    method Search(q: Option<string>, hits: set<string>, dbOk: bool) returns (resp: Response)
      ensures BlankQuery(q) ==> resp == BadRequest("Search Query is required")
      ensures !BlankQuery(q) && !dbOk ==> resp == Unhandled
      ensures !BlankQuery(q) && dbOk ==>
        && resp.SearchHits?
        && NewestFirst(resp.videos)
        && multiset(resp.videos) == multiset(Matching(docs, hits))
    {
      if q.None? || AllNetWhiteSpace(q.value) {
        return BadRequest("Search Query is required");
      }
      if !dbOk {
        return Unhandled;
      }
      return SearchHits(SortNewestFirst(Matching(docs, hits)));
    }

    /** `POST /videos`: the body's id is discarded, both timestamps are set
        from two clock readings, and the insert assigns a fresh ObjectId.
        The validator is not called. */
    method Post(body: Video, newId: string, createdAt: int, updatedAt: int, dbOk: bool) returns (resp: Response)
      requires Valid()
      requires IsCanonicalId(newId) && Find(docs, newId).None?
      modifies this
      ensures Valid()
      ensures dbOk ==>
        var stored := Stamped(body, newId, createdAt, updatedAt);
        docs == old(docs) + [stored] && resp == CreatedAt("/videos/" + newId, stored)
      ensures !dbOk ==> docs == old(docs) && resp == Problem
    {
      if !dbOk {
        return Problem;
      }
      var stored := body.(id := Some(newId), createdAt := createdAt, updatedAt := updatedAt);
      docs := docs + [stored];
      return CreatedAt("/videos/" + newId, stored);
    }

    /** `DELETE /videos/{id}`: only a 24-digit hexadecimal id is looked up;
        the message echoes the id as the request wrote it. */
    method Delete(id: string, dbOk: bool) returns (resp: Response)
      requires Valid()
      modifies this
      ensures Valid()
      ensures !IsObjectIdText(id) ==>
        resp == BadRequest("Invalid ID format. Must be a 24 character - hex string.") && docs == old(docs)
      ensures IsObjectIdText(id) && !dbOk ==> resp == Problem && docs == old(docs)
      ensures IsObjectIdText(id) && dbOk ==>
        match Find(old(docs), CanonicalId(id))
        case None => resp == NotFound(Some("No Vidoe found with ID : " + id)) && docs == old(docs)
        case Some(i) =>
          && resp == NoContent && docs == old(docs)[..i] + old(docs)[i + 1..]
          && SameObjectIdText(old(docs)[i].id.value, id)
    {
      if !IsObjectIdText(id) {
        return BadRequest("Invalid ID format. Must be a 24 character - hex string.");
      }
      if !dbOk {
        return Problem;
      }
      var key := CanonicalId(id);
      var i := Find(docs, key);
      if i.None? {
        return NotFound(Some("No Vidoe found with ID : " + id));
      }
      CanonicalIdFixed(docs[i.value].id.value);
      SameObjectId(docs[i.value].id.value, id);
      RemoveFound(docs, key, i.value);
      docs := docs[..i.value] + docs[i.value + 1..];
      return NoContent;
    }

    /** `PUT /videos/{id}`: the body replaces the whole stored document,
        with its id forced to the path id and a new update time. The
        response echoes the body as modified; the store keeps the id as the
        ObjectId reads back. The route catches nothing. */
    method Put(id: string, body: Video, now: int, dbOk: bool) returns (resp: Response)
      requires Valid()
      modifies this
      ensures Valid()
      ensures |id| != 24 ==> resp == BadRequest("Invalid ID format.") && docs == old(docs)
      ensures |id| == 24 && (!IsObjectIdText(id) || !dbOk) ==> resp == Unhandled && docs == old(docs)
      ensures IsObjectIdText(id) && dbOk ==>
        var replacement := body.(id := Some(id), updatedAt := now);
        match Find(old(docs), CanonicalId(id))
        case None => resp == NotFound(None) && docs == old(docs)
        case Some(i) =>
          && resp == Replaced(replacement)
          && docs == old(docs)[i := replacement.(id := Some(CanonicalId(id)))]
          && SameObjectIdText(old(docs)[i].id.value, id)
    {
      if |id| != 24 {
        return BadRequest("Invalid ID format.");
      }
      if !IsObjectIdText(id) || !dbOk {
        return Unhandled;
      }
      var replacement := body.(id := Some(id), updatedAt := now);
      var key := CanonicalId(id);
      var i := Find(docs, key);
      if i.None? {
        return NotFound(None);
      }
      CanonicalIdFixed(docs[i.value].id.value);
      SameObjectId(docs[i.value].id.value, id);
      docs := docs[i.value := replacement.(id := Some(key))];
      return Replaced(replacement);
    }
  }
}
