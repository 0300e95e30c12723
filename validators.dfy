/** The FluentValidation rule sets of minimalApi/Validators: `VideoValidator`
    and the `VideoPreviewValidator` it applies to the `preview` member.

    Every rule is checked (FluentValidation's default cascade), and each
    one that fails adds a failure naming its member and its check; a
    document is valid when there are no failures. */
module Validators {
  import opened Wrappers
  import opened Text
  import opened Models

  datatype Check = NotEmpty | MinimumLength(min: nat) | MaximumLength(max: nat) | NotNull | GreaterThanZero

  /** The members `VideoPreviewValidator` checks. */
  datatype PreviewMember = SpriteBaseUrl | FrameInterval | SpriteCount | Cols | Rows | FrameWidth | FrameHeight

  /** The members `VideoValidator` checks; a failure inside the preview is
      reported under `preview.<member>`. */
  datatype VideoMember =
    | Title | Description | ThumbnailPath | VideoPath | PreviewPath
    | Preview(inner: Option<PreviewMember>)

  datatype Failure<M> = Failure(member: M, check: Check)

  /** What `NotEmpty()` accepts in a string: not null, and not made of
      white space only (the empty string is all white space). */
  predicate Filled(s: Option<string>) {
    s.Some? && !AllNetWhiteSpace(s.value)
  }

  /** `RuleFor(m).NotEmpty()` */
  function NotEmptyRule<M>(m: M, s: Option<string>): seq<Failure<M>> {
    if Filled(s) then [] else [Failure(m, NotEmpty)]
  }

  /** `.MinimumLength(min).MaximumLength(max)`: both let a null string pass. */
  function LengthRules<M>(m: M, s: Option<string>, min: nat, max: nat): seq<Failure<M>> {
    (if s.Some? && |s.value| < min then [Failure(m, MinimumLength(min))] else [])
    + (if s.Some? && |s.value| > max then [Failure(m, MaximumLength(max))] else [])
  }

  /** `RuleFor(m).GreaterThan(0)` */
  function PositiveRule<M>(m: M, n: int): seq<Failure<M>> {
    if n > 0 then [] else [Failure(m, GreaterThanZero)]
  }

  /** `VideoPreviewValidator` */
  function PreviewFailures(p: VideoPreview): seq<Failure<PreviewMember>> {
    NotEmptyRule(SpriteBaseUrl, p.spriteBaseUrl)
    + PositiveRule(FrameInterval, p.frameInterval)
    + PositiveRule(SpriteCount, p.spriteCount)
    + PositiveRule(Cols, p.cols)
    + PositiveRule(Rows, p.rows)
    + PositiveRule(FrameWidth, p.frameWidth)
    + PositiveRule(FrameHeight, p.frameHeight)
  }

  /** The child validator's failures, reported under `preview`. */
  function Nested(fs: seq<Failure<PreviewMember>>): (r: seq<Failure<VideoMember>>)
    ensures |r| == |fs|
    ensures forall i :: 0 <= i < |fs| ==> r[i] == Failure(Preview(Some(fs[i].member)), fs[i].check)
  {
    seq(|fs|, i requires 0 <= i < |fs| => Failure(Preview(Some(fs[i].member)), fs[i].check))
  }

  /** `RuleFor(v => v.preview).NotNull().SetValidator(...)`: a null preview
      fails `NotNull` and is not passed to the child validator. */
  function PreviewRule(p: Option<VideoPreview>): seq<Failure<VideoMember>> {
    match p
    case None => [Failure(Preview(None), NotNull)]
    case Some(q) => Nested(PreviewFailures(q))
  }

  /** The rules of `VideoValidator` on its string members. */
  function MemberFailures(v: Video): seq<Failure<VideoMember>> {
    NotEmptyRule(Title, v.title) + LengthRules(Title, v.title, 3, 200)
    + NotEmptyRule(Description, v.description) + LengthRules(Description, v.description, 10, 2000)
    + NotEmptyRule(ThumbnailPath, v.thumbnailPath)
    + NotEmptyRule(VideoPath, v.videoPath)
    + NotEmptyRule(PreviewPath, v.previewPath)
  }

  /** `VideoValidator` */
  function VideoFailures(v: Video): seq<Failure<VideoMember>> {
    MemberFailures(v) + PreviewRule(v.preview)
  }

  predicate IsValidPreview(p: VideoPreview) {
    |PreviewFailures(p)| == 0
  }

  predicate IsValid(v: Video) {
    |VideoFailures(v)| == 0
  }

  /** A string rule with bounds: present, not blank, and of a length
      within the bounds. */
  predicate Bounded(s: Option<string>, min: nat, max: nat) {
    Filled(s) && min <= |s.value| <= max
  }

  lemma StringRulesIff<M>(m: M, s: Option<string>, min: nat, max: nat)
    ensures |NotEmptyRule(m, s) + LengthRules(m, s, min, max)| == 0 <==> Bounded(s, min, max)
  {
  }

  /** A preview is valid exactly when its base URL is not blank and every
      number is positive. */
  lemma PreviewValidIff(p: VideoPreview)
    ensures IsValidPreview(p) <==>
      && Filled(p.spriteBaseUrl)
      && p.frameInterval > 0 && p.spriteCount > 0
      && p.cols > 0 && p.rows > 0
      && p.frameWidth > 0 && p.frameHeight > 0
  {
  }

  /** A video is valid exactly when each rule holds on its own member: the
      rules are independent conjuncts. */
  lemma ValidIff(v: Video)
    ensures IsValid(v) <==>
      && Bounded(v.title, 3, 200)
      && Bounded(v.description, 10, 2000)
      && Filled(v.thumbnailPath) && Filled(v.videoPath) && Filled(v.previewPath)
      && v.preview.Some? && IsValidPreview(v.preview.value)
  {
    StringRulesIff(Title, v.title, 3, 200);
    StringRulesIff(Description, v.description, 10, 2000);
  }

  /** The string members whose rules fail. */
  function FailingMembers(v: Video): set<VideoMember> {
    (if Bounded(v.title, 3, 200) then {} else {Title})
    + (if Bounded(v.description, 10, 2000) then {} else {Description})
    + (if Filled(v.thumbnailPath) then {} else {ThumbnailPath})
    + (if Filled(v.videoPath) then {} else {VideoPath})
    + (if Filled(v.previewPath) then {} else {PreviewPath})
  }

  function Members<M>(fs: seq<Failure<M>>): set<M> {
    set f | f in fs :: f.member
  }

  lemma MembersConcat<M>(a: seq<Failure<M>>, b: seq<Failure<M>>)
    ensures Members(a + b) == Members(a) + Members(b)
  {
    assert forall f :: f in a + b <==> f in a || f in b;
  }

  lemma StringRulesReport<M>(m: M, s: Option<string>, min: nat, max: nat)
    ensures Members(NotEmptyRule(m, s) + LengthRules(m, s, min, max)) ==
      if Bounded(s, min, max) then {} else {m}
  {
    StringRulesIff(m, s, min, max);
    var fs := NotEmptyRule(m, s) + LengthRules(m, s, min, max);
    if !Bounded(s, min, max) {
      assert fs[0] in fs;
    }
  }

  lemma NotEmptyReport<M>(m: M, s: Option<string>)
    ensures Members(NotEmptyRule(m, s)) == if Filled(s) then {} else {m}
  {
    var fs := NotEmptyRule(m, s);
    if !Filled(s) {
      assert fs[0] in fs;
    }
  }

  /** The string members the failures name are exactly the members whose
      rules fail. */
  lemma FailuresNameFailingMembers(v: Video)
    ensures Members(MemberFailures(v)) == FailingMembers(v)
  {
    var t := NotEmptyRule(Title, v.title) + LengthRules(Title, v.title, 3, 200);
    var d := NotEmptyRule(Description, v.description) + LengthRules(Description, v.description, 10, 2000);
    var th := NotEmptyRule(ThumbnailPath, v.thumbnailPath);
    var vp := NotEmptyRule(VideoPath, v.videoPath);
    var pp := NotEmptyRule(PreviewPath, v.previewPath);
    assert MemberFailures(v) == t + d + th + vp + pp;
    MembersConcat(t, d);
    MembersConcat(t + d, th);
    MembersConcat(t + d + th, vp);
    MembersConcat(t + d + th + vp, pp);
    StringRulesReport(Title, v.title, 3, 200);
    StringRulesReport(Description, v.description, 10, 2000);
    NotEmptyReport(ThumbnailPath, v.thumbnailPath);
    NotEmptyReport(VideoPath, v.videoPath);
    NotEmptyReport(PreviewPath, v.previewPath);
  }

  /** The preview rule fails exactly on a null or invalid preview, and
      reports under the `preview` member only. */
  lemma PreviewRuleReports(p: Option<VideoPreview>)
    ensures |PreviewRule(p)| == 0 <==> p.Some? && IsValidPreview(p.value)
    ensures forall f :: f in PreviewRule(p) ==> f.member.Preview?
  {
  }
}
