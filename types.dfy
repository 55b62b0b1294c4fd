/** Record shapes shared by the service and the component (types.ts). */
module Types {
  import opened Wrappers

  /** The component's view of one generation job: whether it is running, the
      progress text, and the last result or error (`null` is `None`). */
  datatype VideoGenerationState = VideoGenerationState(
    isGenerating: bool,
    progressMessage: string,
    videoUri: Option<string>,
    error: Option<string>)

  /** The part of a browser `File` the core looks at: its MIME type and the
      data URL a `FileReader` yields for it. */
  datatype ImageFile = ImageFile(mimeType: string, dataUrl: string)
}
