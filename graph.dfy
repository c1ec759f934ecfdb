/** The two-node agent graph: process_media, then generate_caption, then the
    end. Each node returns a partial update that the graph merges into the
    state; the model returns the merged state. The captioning service is a
    total function of the analysis frames and the context text (it answers a
    fallback string on its own failures). */
module Graph {
  import opened Common
  import ImageOps

  datatype AgentState = AgentState(
    inputPath: string,
    contextText: string,
    isVideo: bool,
    analysisFramePaths: Option<seq<string>>,
    processedPath: Option<string>,
    generatedCaption: Option<string>)

  /** The agent input process_incoming_media builds: no outputs yet. */
  function InitialState(inputPath: string, contextText: string, isVideo: bool,
                        frames: Option<seq<string>>): AgentState
  {
    AgentState(inputPath, contextText, isVideo, frames, None, None)
  }

  /** processing_node: videos pass through (they were branded before the
      graph); images are resized and padded, and the result is also the one
      analysis frame. apply_branding is not called. process_image raising
      ends the run with that exception. */
  function ProcessingNode(s: AgentState, image: ImageOps.ImageFile): Outcome<AgentState>
  {
    if s.isVideo then Returned(s.(processedPath := Some(s.inputPath)))
    else
      match ImageOps.ProcessImage(image)
      case Raised => Raised
      case Returned(resized) => Returned(s.(processedPath := Some(resized), analysisFramePaths := Some([resized])))
  }

  /** The frames shown to the captioning service: the analysis frames when
      there are any, else the input file itself. */
  function MediaInputs(s: AgentState): (frames: seq<string>)
    ensures |frames| > 0
    ensures s.analysisFramePaths.Some? && s.analysisFramePaths.value != [] ==> frames == s.analysisFramePaths.value
  {
    if s.analysisFramePaths.Some? && |s.analysisFramePaths.value| > 0 then s.analysisFramePaths.value
    else [s.inputPath]
  }

  /** content_generation_node: the caption is the service's answer, as is. */
  function ContentGenerationNode(s: AgentState, captioner: (seq<string>, string) -> string): AgentState
  {
    s.(generatedCaption := Some(captioner(MediaInputs(s), s.contextText)))
  }

  /** app.invoke: process_media always runs first, generate_caption second,
      and the run ends after it. */
  function Invoke(s: AgentState, image: ImageOps.ImageFile, captioner: (seq<string>, string) -> string)
    : (r: Outcome<AgentState>)
    ensures r.Returned? ==> r.value.processedPath.Some? && r.value.generatedCaption.Some?
  {
    match ProcessingNode(s, image)
    case Raised => Raised
    case Returned(processed) => Returned(ContentGenerationNode(processed, captioner))
  }

  /** For a video the processed path is the input path, no image processing
      happens (the run cannot raise), and the caption is drawn from the given
      frames, or from the video itself when there are none. */
  lemma VideoPassesThrough(s: AgentState, image: ImageOps.ImageFile, captioner: (seq<string>, string) -> string)
    requires s.isVideo
    ensures var r := Invoke(s, image, captioner);
      && r.Returned?
      && r.value.processedPath == Some(s.inputPath)
      && r.value.analysisFramePaths == s.analysisFramePaths
      && r.value.generatedCaption == Some(captioner(MediaInputs(s), s.contextText))
  {
  }

  /** For an image the processed path and the single analysis frame are the
      same resized file, and that file is what the caption is written from. */
  lemma ImageFrameIsProcessedFile(s: AgentState, image: ImageOps.ImageFile,
                                  captioner: (seq<string>, string) -> string)
    requires !s.isVideo
    ensures var r := Invoke(s, image, captioner);
      && (r.Raised? <==> ImageOps.ProcessImage(image).Raised?)
      && (r.Returned? ==>
            var p := ImageOps.ProcessImage(image).value;
            && r.value.processedPath == Some(p)
            && r.value.analysisFramePaths == Some([p])
            && r.value.generatedCaption == Some(captioner([p], s.contextText)))
  {
  }
}
