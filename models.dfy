/** The documents of the ASP.NET API's `CSharpVideosCollection`: the
    `Video` class of minimalApi/Models/Video.cs together with the
    `previewPath` and `preview` members its validator and its `/videos`
    route read. Every reference-typed member may hold null, so strings and
    the preview are optional; `DateTime` values are ticks. */
module Models {
  import opened Wrappers

  datatype VideoPreview = VideoPreview(
    spriteBaseUrl: Option<string>,
    frameInterval: int,
    spriteCount: int,
    cols: int,
    rows: int,
    frameWidth: int,
    frameHeight: int)

  datatype Video = Video(
    id: Option<string>,
    title: Option<string>,
    description: Option<string>,
    createdAt: int,
    updatedAt: int,
    thumbnailPath: Option<string>,
    videoPath: Option<string>,
    previewPath: Option<string>,
    preview: Option<VideoPreview>)
}
