/** The `preview` object the upload handler of backend/index.js writes,
    read as the `VideoPreview` that minimalApi's validators check. */
module UploadedPreview {
  import opened Wrappers
  import opened Text
  import opened Models
  import opened Validators
  import opened Artifacts

  /** The same members under the API's names; the base URL is present. */
  function AsVideoPreview(m: PreviewMeta): VideoPreview {
    VideoPreview(Some(m.spriteBaseUrl), m.frameInterval, m.spriteCount, m.cols, m.rows,
                 m.frameWidth, m.frameHeight)
  }

  /** The base URL starts with "http", so it is never blank. */
  lemma BaseUrlIsFilled(id: string)
    ensures Filled(Some(PublicBase + id + "/preview"))
  {
    var url := PublicBase + id + "/preview";
    assert url[0] == 'h';
  }

  /** The metadata as written passes `VideoPreviewValidator` exactly when
      at least one sprite file was found: every other member is a positive
      constant. */
  lemma WrittenPreviewValidIff(id: string, spriteCount: nat)
    ensures IsValidPreview(AsVideoPreview(PreviewMetaAsWritten(id, spriteCount))) <==> spriteCount >= 1
  {
    BaseUrlIsFilled(id);
    PreviewValidIff(AsVideoPreview(PreviewMetaAsWritten(id, spriteCount)));
  }

  /** The same holds with the corrected interval. */
  lemma CorrectedPreviewValidIff(id: string, spriteCount: nat)
    ensures IsValidPreview(AsVideoPreview(PreviewMetaFor(id, spriteCount))) <==> spriteCount >= 1
  {
    BaseUrlIsFilled(id);
    PreviewValidIff(AsVideoPreview(PreviewMetaFor(id, spriteCount)));
  }
}
