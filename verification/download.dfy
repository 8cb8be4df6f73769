/**
 * The two helpers around the external tools, `download_video` and
 * `merge_video_audio`, with the tools themselves as outcomes: what each
 * yt_dlp download call produced, and how the ffmpeg process ended. The
 * call sites pass four arguments to the three-parameter
 * `merge_video_audio`, so what a call site observes is a three-valued
 * `MergeOutcome`; `MergeCallAsWritten` and `MergeCallIntended` give it for
 * the call as written and as evidently intended.
 */
module Download {
  import opened Wrappers
  import opened PyStr

  /** One `extract_info(..., download=True)` plus `prepare_filename`: the file name, or an exception. */
  datatype Fetch = Fetched(path: string) | FetchRaised

  /** The `(video_filename, audio_filename)` pair `download_video` returns. */
  datatype Paths = Paths(video: Option<string>, audio: Option<string>)

  /**
   * `download_video`: the video download, then the audio download when an
   * audio id is given; any exception turns the whole result into `(None, None)`.
   */
  function DownloadVideo(audioFormatId: Option<string>, video: Fetch, audio: Fetch): (p: Paths)
    ensures p.audio.Some? ==> p.video.Some?
    ensures p.video.Some? <==> video.Fetched? && (Truthy(audioFormatId) ==> audio.Fetched?)
    ensures p.video.Some? ==> p.video.value == video.path
    ensures p.audio.Some? <==> p.video.Some? && Truthy(audioFormatId)
    ensures p.audio.Some? ==> p.audio.value == audio.path
  {
    match video
    case FetchRaised => Paths(None, None)
    case Fetched(videoPath) =>
      if Truthy(audioFormatId) then
        match audio
        case FetchRaised => Paths(None, None)
        case Fetched(audioPath) => Paths(Some(videoPath), Some(audioPath))
      else Paths(Some(videoPath), None)
  }

  /** Without an audio id the audio download is never started, so its outcome does not matter. */
  lemma AudioIgnoredWithoutId(audioFormatId: Option<string>, video: Fetch, audio1: Fetch, audio2: Fetch)
    requires !Truthy(audioFormatId)
    ensures DownloadVideo(audioFormatId, video, audio1) == DownloadVideo(audioFormatId, video, audio2)
    ensures DownloadVideo(audioFormatId, video, audio1).audio.None?
  {
  }

  /** How the ffmpeg subprocess ended: an exit status, or an exception while launching it. */
  datatype ProcessRun = Exited(code: int) | LaunchRaised

  /** `merge_video_audio` itself: success exactly when ffmpeg exits with status 0. */
  function MergeVideoAudio(run: ProcessRun): (merged: bool)
    ensures merged <==> run.Exited? && run.code == 0
  {
    match run
    case LaunchRaised => false
    case Exited(code) => code == 0
  }

  /** What a call site of `merge_video_audio` observes. */
  datatype MergeOutcome = Merged | NotMerged | MergeRaised(message: string)

  /** Python's message for a positional argument too many. */
  const ArityMessage := "merge_video_audio() takes 3 positional arguments but 4 were given"

  /**
   * The call as written, with a fourth argument: Python rejects it before
   * the body runs, whatever ffmpeg would have done.
   */
  function MergeCallAsWritten(run: ProcessRun): (m: MergeOutcome)
    ensures m.MergeRaised?
    ensures m.message == ArityMessage
  {
    MergeRaised(ArityMessage)
  }

  /** The call with the three declared arguments: it never raises and reports ffmpeg's verdict. */
  function MergeCallIntended(run: ProcessRun): (m: MergeOutcome)
    ensures !m.MergeRaised?
    ensures m == Merged <==> MergeVideoAudio(run)
  {
    if MergeVideoAudio(run) then Merged else NotMerged
  }
}
