/**
 * Single downloads: splitting a posted `format_id` into its video and audio
 * parts, the download ids of the background and the synchronous path, the
 * reply of `start_download`, and the record `process_download` leaves in
 * the progress map. The tools, the file-system checks and the purge of the
 * temporary directory are inputs (`JobRun`).
 */
module Jobs {
  import opened Wrappers
  import opened PyStr
  import opened Download
  import Formats

  /** `(video_format_id, audio_format_id)`. */
  datatype FormatChoice = FormatChoice(video: string, audio: Option<string>)

  /**
   * `format_id.split('+')[0]` and `format_id.split('+')[1] if '+' in
   * format_id else None`.
   */
  function SplitFormatId(formatId: string): (c: FormatChoice)
    ensures '+' !in formatId ==> c == FormatChoice(formatId, None)
    ensures c.audio.Some? <==> '+' in formatId
  {
    var parts := Split(formatId, '+');
    if '+' in formatId then FormatChoice(parts[0], Some(parts[1]))
    else
      SplitWithoutSeparator(formatId, '+');
      FormatChoice(parts[0], None)
  }

  /**
   * The video id is the '+'-free text before the first '+', the audio id
   * the '+'-free text after it, up to the next '+' or the end.
   */
  lemma SplitFormatIdPieces(formatId: string)
    requires '+' in formatId
    ensures var c := SplitFormatId(formatId);
      '+' !in c.video && '+' !in c.audio.value &&
      StartsWith(formatId, c.video + "+" + c.audio.value) &&
      (|c.video + "+" + c.audio.value| < |formatId| ==> formatId[|c.video + "+" + c.audio.value|] == '+')
  {
    var parts := Split(formatId, '+');
    SplitHead(formatId, '+');
    var v := parts[0];
    var rest := formatId[|v| + 1..];
    assert parts[1..] == Split(rest, '+');
    SplitHead(rest, '+');
    var a := parts[1];
    assert a == Split(rest, '+')[0];
    PiecesJoin(formatId, v, a);
    if |v| + 1 + |a| < |formatId| {
      if '+' !in rest {
        SplitWithoutSeparator(rest, '+');
        assert false;
      }
      assert formatId[|v| + 1 + |a|] == rest[|a|];
    }
  }

  /** Helper: a '+' after a prefix `v`, followed by a prefix `a` of what is left, makes `v + "+" + a` a prefix. */
  lemma PiecesJoin(s: string, v: string, a: string)
    requires StartsWith(s, v) && |v| < |s| && s[|v|] == '+'
    requires StartsWith(s[|v| + 1..], a)
    ensures StartsWith(s, v + "+" + a)
  {
    var w := v + "+" + a;
    assert |w| <= |s|;
    forall i | 0 <= i < |w| ensures s[i] == w[i] {
      if i < |v| {
        assert s[..|v|][i] == s[i];
      } else if i > |v| {
        assert s[|v| + 1..][..|a|][i - |v| - 1] == s[i];
      }
    }
    assert s[..|w|] == w;
  }

  /** A composite id `v+a` of '+'-free ids splits back into `v` and `a`. */
  lemma SplitComposite(v: string, a: string)
    requires '+' !in v && '+' !in a
    ensures SplitFormatId(v + "+" + a) == FormatChoice(v, Some(a))
  {
    SplitPair(v, a, '+');
    assert v + "+" + a == v + ['+'] + a;
    assert '+' in v + "+" + a by {
      assert (v + "+" + a)[|v|] == '+';
    }
  }

  /** Anything after a second '+' is ignored. */
  lemma SplitDropsThirdPart(v: string, a: string, rest: string)
    requires '+' !in v && '+' !in a
    ensures SplitFormatId(v + "+" + a + "+" + rest) == FormatChoice(v, Some(a))
  {
    var s := v + "+" + a + "+" + rest;
    assert s == v + ['+'] + (a + ['+'] + rest);
    SplitAfterFirst(v, a + ['+'] + rest, '+');
    SplitAfterFirst(a, rest, '+');
    assert s[|v|] == '+';
  }

  /**
   * The ids the selector offers come back apart when posted: a video offer
   * splits into its video and audio ids, an audio offer into its own id and
   * no audio id, provided the extractor's ids hold no '+'.
   */
  lemma OfferedIdsSplitBack(v: Formats.FormatInfo, a: Formats.FormatInfo)
    requires '+' !in v.formatId && '+' !in a.formatId
    ensures SplitFormatId(Formats.Combined(v, a).formatId) == FormatChoice(v.formatId, Formats.Combined(v, a).audioFormatId)
    ensures SplitFormatId(Formats.Solo(a).formatId) == FormatChoice(a.formatId, None)
  {
    SplitComposite(v.formatId, a.formatId);
  }

  /** `f"{url}_{format_id}+"`, the id `start_download` hands to the background job. */
  function BackgroundDownloadId(url: string, formatId: string): (id: string)
    ensures |id| == |url| + |formatId| + 2
    ensures StartsWith(id, url) && id[|id| - 1] == '+'
  {
    url + "_" + formatId + "+"
  }

  /** `f"{url}_{format_id}"`, the id of the synchronous path. */
  function SyncDownloadId(url: string, formatId: string): (id: string)
    ensures |id| == |url| + |formatId| + 1
    ensures StartsWith(id, url)
  {
    url + "_" + formatId
  }

  /** The two paths derive different ids for the same request: the background one has a trailing '+'. */
  lemma DownloadIdsRelated(url: string, formatId: string)
    ensures BackgroundDownloadId(url, formatId) == SyncDownloadId(url, formatId) + "+"
    ensures BackgroundDownloadId(url, formatId) != SyncDownloadId(url, formatId)
  {
  }

  /** For one URL the background id determines the format id, so distinct selections never share a record. */
  lemma BackgroundIdDeterminesFormat(url: string, f1: string, f2: string)
    requires BackgroundDownloadId(url, f1) == BackgroundDownloadId(url, f2)
    ensures f1 == f2
  {
    var id := BackgroundDownloadId(url, f1);
    assert f1 == id[|url| + 1..|id| - 1];
    assert f2 == id[|url| + 1..|id| - 1];
  }

  /** Across URLs the ids can collide: an '_' in the URL moves the boundary. */
  lemma BackgroundIdsCollideAcrossUrls()
    ensures BackgroundDownloadId("a_b", "c") == BackgroundDownloadId("a", "b_c")
  {
  }

  /** The JSON reply of `start_download`. */
  datatype StartReply = Started(downloadId: string) | Refused(error: string)

  const MissingSelection := "Missing URL or format selection"

  /** `start_download`: a POST with a non-empty URL and format id starts a job under its background id. */
  function StartDownload(isPost: bool, url: Option<string>, formatId: Option<string>): (r: StartReply)
    ensures r.Started? <==> isPost && Truthy(url) && Truthy(formatId)
    ensures r.Started? ==> r.downloadId == BackgroundDownloadId(url.value, formatId.value)
    ensures isPost && r.Refused? ==> r.error == MissingSelection
    ensures !isPost ==> r == Refused("Invalid request")
  {
    if !isPost then Refused("Invalid request")
    else if !Truthy(url) || !Truthy(formatId) then Refused(MissingSelection)
    else Started(BackgroundDownloadId(url.value, formatId.value))
  }

  /** A record of `utils.download_progress`: `status` is 'error' or 'completed'. */
  datatype JobRecord = JobError(error: string) | JobCompleted(filePath: string, filename: string)

  const DownloadFailed := "Download failed"

  /**
   * What the environment does during one `process_download`: the exception
   * text if listing the temporary directory raises, the two downloads, the
   * two `os.path.exists` answers and what the merge call site observes.
   */
  datatype JobRun = JobRun(
    purge: Option<string>,
    video: Fetch,
    audio: Fetch,
    videoExists: bool,
    audioExists: bool,
    merge: MergeOutcome)

  /** The merge is attempted: an audio file exists and the format id named an audio part. */
  predicate MergeAttempted(formatId: string, run: JobRun) {
    var choice := SplitFormatId(formatId);
    var paths := DownloadVideo(choice.audio, run.video, run.audio);
    Truthy(paths.video) && run.videoExists && Truthy(paths.audio) && run.audioExists && Truthy(choice.audio)
  }

  /** The record `process_download` writes under its download id. */
  function JobOutcome(tempDir: string, formatId: string, run: JobRun): (rec: JobRecord)
    ensures rec.JobError? ==>
      Some(rec.error) == run.purge || rec.error == DownloadFailed ||
      (MergeAttempted(formatId, run) && run.merge == MergeRaised(rec.error))
  {
    if run.purge.Some? then JobError(run.purge.value)
    else
      var choice := SplitFormatId(formatId);
      var paths := DownloadVideo(choice.audio, run.video, run.audio);
      if !Truthy(paths.video) || !run.videoExists then JobError(DownloadFailed)
      else
        var videoPath := paths.video.value;
        var name := Basename(videoPath);
        if Truthy(paths.audio) && run.audioExists && Truthy(choice.audio) then
          match run.merge
          case MergeRaised(message) => JobError(message)
          case NotMerged => JobCompleted(videoPath, name)
          case Merged =>
            var output := Join(tempDir, name);
            JobCompleted(output, Basename(output))
        else JobCompleted(videoPath, name)
  }

  /** A missing or vanished video file gives exactly the "Download failed" record, whatever the merge would do. */
  lemma MissingVideoFails(tempDir: string, formatId: string, run: JobRun, merge: MergeOutcome)
    requires run.purge.None?
    requires var paths := DownloadVideo(SplitFormatId(formatId).audio, run.video, run.audio);
      !Truthy(paths.video) || !run.videoExists
    ensures JobOutcome(tempDir, formatId, run) == JobError(DownloadFailed)
    ensures JobOutcome(tempDir, formatId, run.(merge := merge)) == JobError(DownloadFailed)
  {
  }

  /** Without a merge attempt the record is the downloaded video itself and the merge outcome plays no part. */
  lemma NoMergeServesVideo(tempDir: string, formatId: string, run: JobRun, merge: MergeOutcome)
    requires run.purge.None?
    requires !MergeAttempted(formatId, run)
    requires JobOutcome(tempDir, formatId, run).JobCompleted?
    ensures var paths := DownloadVideo(SplitFormatId(formatId).audio, run.video, run.audio);
      JobOutcome(tempDir, formatId, run) == JobCompleted(paths.video.value, Basename(paths.video.value))
    ensures JobOutcome(tempDir, formatId, run.(merge := merge)) == JobOutcome(tempDir, formatId, run)
  {
  }

  /**
   * The three merge outcomes: a successful merge serves the merge output
   * in the temporary directory, an unsuccessful one the unmerged video, and
   * an exception gives an error record carrying its text.
   */
  lemma MergeDecidesRecord(tempDir: string, formatId: string, run: JobRun)
    requires run.purge.None?
    requires MergeAttempted(formatId, run)
    ensures var videoPath := DownloadVideo(SplitFormatId(formatId).audio, run.video, run.audio).video.value;
      var output := Join(tempDir, Basename(videoPath));
      JobOutcome(tempDir, formatId, run) ==
        match run.merge
        case Merged => JobCompleted(output, Basename(videoPath))
        case NotMerged => JobCompleted(videoPath, Basename(videoPath))
        case MergeRaised(message) => JobError(message)
  {
    var videoPath := DownloadVideo(SplitFormatId(formatId).audio, run.video, run.audio).video.value;
    BasenameOfJoin(tempDir, videoPath);
  }

  /** A completed record always names the file it points at. */
  lemma CompletedNamesItsFile(tempDir: string, formatId: string, run: JobRun)
    requires JobOutcome(tempDir, formatId, run).JobCompleted?
    ensures var rec := JobOutcome(tempDir, formatId, run);
      rec.filename == Basename(rec.filePath)
  {
    if run.purge.None? && MergeAttempted(formatId, run) && run.merge == Merged {
      var videoPath := DownloadVideo(SplitFormatId(formatId).audio, run.video, run.audio).video.value;
      BasenameOfJoin(tempDir, videoPath);
    }
  }

  /** A format id without '+' downloads no audio, so neither the audio download nor the merge can affect the record. */
  lemma SoloFormatIgnoresAudio(tempDir: string, formatId: string, run: JobRun, audio: Fetch, audioExists: bool, merge: MergeOutcome)
    requires '+' !in formatId
    ensures JobOutcome(tempDir, formatId, run.(audio := audio, audioExists := audioExists, merge := merge)) ==
            JobOutcome(tempDir, formatId, run)
  {
  }

  /**
   * When the video lands in the temporary directory under a '/'-free name,
   * the merge output path is the video path itself.
   */
  lemma MergeOutputIsVideoPath(tempDir: string, name: string)
    requires '/' !in name
    ensures Join(tempDir, Basename(Join(tempDir, name))) == Join(tempDir, name)
  {
    BasenameAfterSlash("", name);
    assert "" + name == name;
    BasenameOfJoin(tempDir, name);
  }

  /** As written, every job that reaches the merge ends in an error record with the arity message. */
  lemma MergeAsWrittenFailsJob(tempDir: string, formatId: string, run: JobRun, ffmpeg: ProcessRun)
    requires run.purge.None?
    requires MergeAttempted(formatId, run)
    requires run.merge == MergeCallAsWritten(ffmpeg)
    ensures JobOutcome(tempDir, formatId, run) == JobError(ArityMessage)
  {
  }

  /**
   * With the three-argument call a job that downloaded its video always
   * completes, serving the merge output exactly when ffmpeg succeeded.
   */
  lemma MergeIntendedCompletesJob(tempDir: string, formatId: string, run: JobRun, ffmpeg: ProcessRun)
    requires run.purge.None?
    requires MergeAttempted(formatId, run)
    requires run.merge == MergeCallIntended(ffmpeg)
    ensures var videoPath := DownloadVideo(SplitFormatId(formatId).audio, run.video, run.audio).video.value;
      var rec := JobOutcome(tempDir, formatId, run);
      rec.JobCompleted? && rec.filename == Basename(videoPath) &&
      (MergeVideoAudio(ffmpeg) ==> rec.filePath == Join(tempDir, Basename(videoPath))) &&
      (!MergeVideoAudio(ffmpeg) ==> rec.filePath == videoPath)
  {
    MergeDecidesRecord(tempDir, formatId, run);
  }

  /** `utils.download_progress` as far as single downloads write it. */
  class JobProgress {
    var records: map<string, JobRecord>

    constructor()
      ensures records == map[]
    {
      records := map[];
    }

    /**
     * `process_download`: the record it writes, step by step, under
     * `downloadId`; every other record stays as it was.
     */
    method ProcessDownload(url: string, formatId: string, downloadId: string, tempDir: string, run: JobRun)
      modifies this
      ensures records == old(records)[downloadId := JobOutcome(tempDir, formatId, run)]
    {
      if run.purge.Some? {
        records := records[downloadId := JobError(run.purge.value)];
        return;
      }
      var parts := Split(formatId, '+');
      var audioFormatId := if '+' in formatId then Some(parts[1]) else None;
      assert audioFormatId == SplitFormatId(formatId).audio;
      var paths := DownloadVideo(audioFormatId, run.video, run.audio);
      if !Truthy(paths.video) || !run.videoExists {
        records := records[downloadId := JobError(DownloadFailed)];
        return;
      }
      var videoPath := paths.video.value;
      var outputFilename := Basename(videoPath);
      if Truthy(paths.audio) && run.audioExists && Truthy(audioFormatId) {
        var outputPath := Join(tempDir, outputFilename);
        match run.merge {
          case MergeRaised(message) =>
            records := records[downloadId := JobError(message)];
            return;
          case Merged =>
            videoPath := outputPath;
            outputFilename := Basename(outputPath);
          case NotMerged =>
        }
      }
      records := records[downloadId := JobCompleted(videoPath, outputFilename)];
    }
  }
}
