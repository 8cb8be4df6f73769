/**
 * The playlist batch controller `start_playlist_download`: for each member
 * in turn the format lookup, the pick of the first offer of the requested
 * type, the download and, for video, the merge; the bookkeeping in the
 * batch's progress entry; and the final status. Each member's
 * `extract_video_info` result (the offers FormatSelection computes, or
 * `None`), tool and file-system outcomes are part of its `Member` value,
 * and the time stamp of the archive name and whether writing the archive
 * succeeds are inputs.
 */
module Playlist {
  import opened Wrappers
  import opened PyStr
  import opened Formats
  import opened Download

  /** The offer matches the requested `format_type`; any other type string matches nothing. */
  predicate Matches(o: Offer, formatType: string) {
    (formatType == "audio" && o.kind == Audio) || (formatType == "video" && o.kind == Video)
  }

  /** The picked offer: for audio its `audio_format_id` is cleared. */
  function Picked(o: Offer, formatType: string): Offer {
    if formatType == "audio" then o.(audioFormatId := None) else o
  }

  /** The pick: the first offer of the requested type. */
  function FirstOffer(offers: seq<Offer>, formatType: string): (sel: Option<Offer>)
    ensures sel.Some? ==> Matches(sel.value, formatType)
    ensures sel.Some? && formatType == "audio" ==> sel.value.audioFormatId.None?
    decreases |offers|
  {
    if offers == [] then None
    else if Matches(offers[0], formatType) then Some(Picked(offers[0], formatType))
    else FirstOffer(offers[1..], formatType)
  }

  /** The pick finds an offer exactly when one matches, and then it is the first match. */
  lemma {:induction false} FirstOfferIsFirstMatch(offers: seq<Offer>, formatType: string)
    ensures FirstOffer(offers, formatType).Some? <==> exists i :: 0 <= i < |offers| && Matches(offers[i], formatType)
    ensures FirstOffer(offers, formatType).Some? ==>
      exists i :: 0 <= i < |offers| && Matches(offers[i], formatType) &&
        (forall j :: 0 <= j < i ==> !Matches(offers[j], formatType)) &&
        FirstOffer(offers, formatType).value == Picked(offers[i], formatType)
    decreases |offers|
  {
    if offers != [] && !Matches(offers[0], formatType) {
      FirstOfferIsFirstMatch(offers[1..], formatType);
      if exists i :: 0 <= i < |offers| && Matches(offers[i], formatType) {
        var i :| 0 <= i < |offers| && Matches(offers[i], formatType);
        assert offers[1..][i - 1] == offers[i];
      }
      if FirstOffer(offers, formatType).Some? {
        var i :| 0 <= i < |offers[1..]| && Matches(offers[1..][i], formatType) &&
          (forall j :: 0 <= j < i ==> !Matches(offers[1..][j], formatType)) &&
          FirstOffer(offers[1..], formatType).value == Picked(offers[1..][i], formatType);
        forall j | 0 <= j < i + 1 ensures !Matches(offers[j], formatType) {
          if j > 0 {
            assert offers[j] == offers[1..][j - 1];
          }
        }
        assert offers[i + 1] == offers[1..][i];
      }
    } else if offers != [] {
      assert Matches(offers[0], formatType);
    }
  }

  /** The loop of the pick, leaving at the first match. */
  method PickFormat(offers: seq<Offer>, formatType: string) returns (sel: Option<Offer>)
    ensures sel == FirstOffer(offers, formatType)
  {
    var i := 0;
    while i < |offers|
      invariant 0 <= i <= |offers|
      invariant FirstOffer(offers[i..], formatType) == FirstOffer(offers, formatType)
    {
      var fmt := offers[i];
      assert offers[i..][1..] == offers[i + 1..];
      if formatType == "audio" && fmt.kind == Audio {
        return Some(fmt.(audioFormatId := None));
      } else if formatType == "video" && fmt.kind == Video {
        return Some(fmt);
      }
      i := i + 1;
    }
    return None;
  }

  /** One playlist member and everything the environment does for it. */
  datatype Member = Member(
    title: string,
    details: Option<seq<Offer>>,
    video: Fetch,
    audio: Fetch,
    audioExists: bool,
    merge: MergeOutcome)

  datatype BatchStatus = Downloading | Completed | Failed

  /** `download_progress[playlist_id]`. */
  datatype Batch = Batch(
    current: nat,
    total: nat,
    status: BatchStatus,
    completedVideos: seq<string>,
    failedVideos: seq<string>,
    zipFile: Option<string>)

  /** The entry a batch starts with. */
  function InitialBatch(total: nat): (b: Batch)
    ensures b.current == 0 && b.total == total && b.status == Downloading
    ensures b.completedVideos == [] && b.failedVideos == [] && b.zipFile.None?
  {
    Batch(0, total, Downloading, [], [], None)
  }

  /** The batch after one member, or as it stood when an exception left the loop. */
  datatype Step = Continued(batch: Batch) | Escaped(batch: Batch)

  function AppendFailed(b: Batch, title: string): Batch {
    b.(failedVideos := b.failedVideos + [title])
  }

  /** The member reaches the download: its formats were found and one of them matches. */
  predicate ReachesDownload(m: Member, formatType: string) {
    var details := m.details;
    details.Some? && details.value != [] && FirstOffer(details.value, formatType).Some?
  }

  /** The paths the member's download produces (for a member that reaches the download). */
  function MemberPaths(m: Member, formatType: string): Paths
    requires ReachesDownload(m, formatType)
  {
    var sel := FirstOffer(m.details.value, formatType).value;
    DownloadVideo(sel.audioFormatId, m.video, m.audio)
  }

  /** One pass of the member loop. */
  function MemberStep(b: Batch, m: Member, formatType: string): Step {
    var details := m.details;
    if details.None? || details.value == [] then Continued(AppendFailed(b, m.title))
    else
      var sel := FirstOffer(details.value, formatType);
      if sel.None? then Continued(AppendFailed(b, m.title))
      else
        var paths := DownloadVideo(sel.value.audioFormatId, m.video, m.audio);
        if Truthy(paths.video) then
          if formatType == "video" && Truthy(paths.audio) && m.audioExists && m.merge.MergeRaised? then Escaped(b)
          else Continued(b.(completedVideos := b.completedVideos + [m.title], current := b.current + 1))
        else Continued(AppendFailed(b, m.title).(current := b.current + 1))
  }

  /** The members from the current one on; an exception stops the loop. */
  function RunMembers(b: Batch, members: seq<Member>, formatType: string): Step
    decreases |members|
  {
    if members == [] then Continued(b)
    else
      match MemberStep(b, members[0], formatType)
      case Escaped(e) => Escaped(e)
      case Continued(next) => RunMembers(next, members[1..], formatType)
  }

  /** `os.path.join(TEMP_DIR, f'playlist_{stamp}.zip')`. */
  function ZipName(tempRoot: string, stamp: string): string {
    Join(tempRoot, "playlist_" + stamp + ".zip")
  }

  /** The entry `start_playlist_download` leaves behind. */
  function PlaylistOutcome(members: seq<Member>, formatType: string,
                           tempRoot: string, stamp: string, zipWritten: bool): Batch
  {
    match RunMembers(InitialBatch(|members|), members, formatType)
    case Escaped(e) => e.(status := Failed)
    case Continued(done) =>
      if zipWritten then done.(status := Completed, zipFile := Some(ZipName(tempRoot, stamp)))
      else done.(status := Failed)
  }

  /**
   * One member adds its title to exactly one of the two lists, leaves the
   * total alone, and bumps `current` exactly when it reached the download;
   * an exception leaves the batch untouched.
   */
  lemma StepRecordsTitleOnce(b: Batch, m: Member, formatType: string)
    ensures match MemberStep(b, m, formatType)
      case Escaped(e) => e == b && ReachesDownload(m, formatType)
      case Continued(n) =>
        n.total == b.total && n.status == b.status && n.zipFile == b.zipFile &&
        ((n.completedVideos == b.completedVideos + [m.title] && n.failedVideos == b.failedVideos) ||
         (n.failedVideos == b.failedVideos + [m.title] && n.completedVideos == b.completedVideos)) &&
        (n.current == b.current + 1 <==> ReachesDownload(m, formatType)) &&
        (n.current == b.current <==> !ReachesDownload(m, formatType))
    ensures !ReachesDownload(m, formatType) ==> MemberStep(b, m, formatType) == Continued(AppendFailed(b, m.title))
  {
  }

  /**
   * A member that reached the download counts as completed exactly when its
   * video path is present; the merge result matters only by raising.
   */
  lemma CompletionFollowsVideoPath(b: Batch, m: Member, formatType: string, merge: MergeOutcome)
    requires ReachesDownload(m, formatType)
    requires !m.merge.MergeRaised? && !merge.MergeRaised?
    ensures MemberStep(b, m, formatType) == MemberStep(b, m.(merge := merge), formatType)
    ensures var n := MemberStep(b, m, formatType);
      n.Continued? &&
      (n.batch.completedVideos == b.completedVideos + [m.title] <==> Truthy(MemberPaths(m, formatType).video))
  {
  }

  /** An audio pick downloads no audio track, so no merge is attempted and no member can stop the batch. */
  lemma AudioMemberNeverEscapes(b: Batch, m: Member)
    ensures MemberStep(b, m, "audio").Continued?
  {
  }

  /** As written, a video member whose audio download succeeded stops the batch at the merge call. */
  lemma MergeAsWrittenStopsBatch(b: Batch, m: Member, ffmpeg: ProcessRun)
    requires ReachesDownload(m, "video")
    requires var paths := MemberPaths(m, "video");
      Truthy(paths.video) && Truthy(paths.audio) && m.audioExists
    requires m.merge == MergeCallAsWritten(ffmpeg)
    ensures MemberStep(b, m, "video") == Escaped(b)
  {
  }

  /**
   * With the three-argument call the merge never raises, so every member
   * that reached the download is recorded and the batch goes on.
   */
  lemma MergeIntendedKeepsBatchGoing(b: Batch, m: Member, ffmpeg: ProcessRun)
    requires m.merge == MergeCallIntended(ffmpeg)
    ensures MemberStep(b, m, "video").Continued?
    ensures ReachesDownload(m, "video") ==>
      MemberStep(b, m, "video").batch.current == b.current + 1 &&
      (MemberStep(b, m, "video").batch.completedVideos == b.completedVideos + [m.title] <==>
       Truthy(MemberPaths(m, "video").video))
  {
  }

  /** The counters a batch keeps in step: `current` never exceeds the number of titles recorded. */
  predicate Accounted(b: Batch) {
    b.current <= |b.completedVideos| + |b.failedVideos|
  }

  /**
   * A run over the members: without an exception every member's title is
   * recorded once, the earlier titles stay in place, and `current` grows by
   * at most the number of members; with one, some member is left unrecorded.
   * Either way `Accounted` is preserved.
   */
  lemma {:induction false} RunAccounts(b: Batch, members: seq<Member>, formatType: string)
    ensures var s := RunMembers(b, members, formatType);
      s.batch.total == b.total && s.batch.status == b.status && s.batch.zipFile == b.zipFile &&
      b.current <= s.batch.current &&
      Extends(s.batch.completedVideos, b.completedVideos) &&
      Extends(s.batch.failedVideos, b.failedVideos) &&
      (Accounted(b) ==> Accounted(s.batch)) &&
      (s.Continued? ==>
        |s.batch.completedVideos| + |s.batch.failedVideos| == |b.completedVideos| + |b.failedVideos| + |members| &&
        s.batch.current <= b.current + |members|) &&
      (s.Escaped? ==>
        |s.batch.completedVideos| + |s.batch.failedVideos| < |b.completedVideos| + |b.failedVideos| + |members|)
    decreases |members|
  {
    if members != [] {
      var m := members[0];
      StepRecordsTitleOnce(b, m, formatType);
      match MemberStep(b, m, formatType)
      case Escaped(e) =>
      case Continued(n) =>
        RunAccounts(n, members[1..], formatType);
        var s := RunMembers(n, members[1..], formatType);
        assert Extends(n.completedVideos, b.completedVideos) by {
          assert (b.completedVideos + [m.title])[..|b.completedVideos|] == b.completedVideos;
        }
        assert Extends(n.failedVideos, b.failedVideos) by {
          assert (b.failedVideos + [m.title])[..|b.failedVideos|] == b.failedVideos;
        }
        PrefixTrans(s.batch.completedVideos, n.completedVideos, b.completedVideos);
        PrefixTrans(s.batch.failedVideos, n.failedVideos, b.failedVideos);
    }
  }

  /**
   * An exception ends the loop: once member `i` raises, the members after it
   * are never processed and the entry stays as it stood before member `i`.
   */
  lemma {:induction false} EscapeSkipsRest(b: Batch, members: seq<Member>, formatType: string, i: nat)
    requires i < |members|
    requires RunMembers(b, members[..i], formatType).Continued?
    requires MemberStep(RunMembers(b, members[..i], formatType).batch, members[i], formatType).Escaped?
    ensures RunMembers(b, members, formatType) == Escaped(RunMembers(b, members[..i], formatType).batch)
    decreases i
  {
    var m := members[0];
    if i == 0 {
      assert members[..0] == [];
      StepRecordsTitleOnce(b, m, formatType);
    } else {
      assert members[..i][0] == m && members[..i][1..] == members[1..][..i - 1];
      var n := MemberStep(b, m, formatType).batch;
      EscapeSkipsRest(n, members[1..], formatType, i - 1);
    }
  }

  /** `u` is a prefix of `s`: the titles recorded earlier stay in place. */
  predicate Extends(s: seq<string>, u: seq<string>) {
    |u| <= |s| && s[..|u|] == u
  }

  /** Helper: a prefix of a prefix is a prefix. */
  lemma PrefixTrans(s: seq<string>, t: seq<string>, u: seq<string>)
    requires Extends(s, t) && Extends(t, u)
    ensures Extends(s, u)
  {
    assert s[..|t|][..|u|] == s[..|u|];
  }

  /**
   * The final entry: 'completed' with the archive name only when every
   * member was recorded and the archive was written; otherwise 'failed'
   * without an archive. `current` never exceeds the titles recorded.
   */
  lemma OutcomeStatus(members: seq<Member>, formatType: string,
                      tempRoot: string, stamp: string, zipWritten: bool)
    ensures var b := PlaylistOutcome(members, formatType, tempRoot, stamp, zipWritten);
      b.total == |members| && b.current <= |b.completedVideos| + |b.failedVideos| &&
      (b.status == Completed || b.status == Failed) &&
      (b.status == Completed <==> zipWritten && RunMembers(InitialBatch(|members|), members, formatType).Continued?) &&
      (b.status == Completed ==>
        b.zipFile == Some(ZipName(tempRoot, stamp)) && |b.completedVideos| + |b.failedVideos| == |members|) &&
      (b.status == Failed ==> b.zipFile.None?)
  {
    RunAccounts(InitialBatch(|members|), members, formatType);
  }

  /** A batch of audio picks depends for its status only on the archive being written. */
  lemma AudioBatchCompletes(members: seq<Member>, tempRoot: string, stamp: string)
    ensures PlaylistOutcome(members, "audio", tempRoot, stamp, true).status == Completed
  {
    AudioRunContinues(InitialBatch(|members|), members);
  }

  lemma {:induction false} AudioRunContinues(b: Batch, members: seq<Member>)
    ensures RunMembers(b, members, "audio").Continued?
    decreases |members|
  {
    if members != [] {
      AudioMemberNeverEscapes(b, members[0]);
      AudioRunContinues(MemberStep(b, members[0], "audio").batch, members[1..]);
    }
  }

  /** Helper: the run over the members is the first member's step followed by the run over the rest. */
  lemma RunAfterStep(b: Batch, members: seq<Member>, i: nat, formatType: string, s: Step)
    requires i < |members| && s == MemberStep(b, members[i], formatType)
    ensures s.Escaped? ==> RunMembers(b, members[i..], formatType) == s
    ensures s.Continued? ==> RunMembers(b, members[i..], formatType) == RunMembers(s.batch, members[i + 1..], formatType)
  {
    assert members[i..][1..] == members[i + 1..];
  }

  /** Helper: the final entry in terms of how the run over the members ended. */
  lemma OutcomeAfterRun(members: seq<Member>, formatType: string,
                        tempRoot: string, stamp: string, zipWritten: bool, s: Step)
    requires s == RunMembers(InitialBatch(|members|), members, formatType)
    ensures PlaylistOutcome(members, formatType, tempRoot, stamp, zipWritten) ==
      if s.Escaped? then s.batch.(status := Failed)
      else if zipWritten then s.batch.(status := Completed, zipFile := Some(ZipName(tempRoot, stamp)))
      else s.batch.(status := Failed)
  {
  }

  /**
   * The imperative loop body behind `StartPlaylistDownload`: the statements
   * one member runs through, proved equal to the specification `MemberStep`.
   */
  method MemberPass(b: Batch, m: Member, formatType: string) returns (s: Step)
    ensures s == MemberStep(b, m, formatType)
  {
    var details := m.details;
    if details.None? || details.value == [] {
      return Continued(b.(failedVideos := b.failedVideos + [m.title]));
    }
    var selected := PickFormat(details.value, formatType);
    if selected.None? {
      return Continued(b.(failedVideos := b.failedVideos + [m.title]));
    }
    var paths := DownloadVideo(selected.value.audioFormatId, m.video, m.audio);
    var next := b;
    if Truthy(paths.video) {
      if formatType == "video" && Truthy(paths.audio) && m.audioExists && m.merge.MergeRaised? {
        return Escaped(b);
      }
      next := next.(completedVideos := next.completedVideos + [m.title]);
    } else {
      next := next.(failedVideos := next.failedVideos + [m.title]);
    }
    next := next.(current := next.current + 1);
    return Continued(next);
  }

  /** The global `download_progress` as far as playlists write it. */
  class PlaylistProgress {
    var batches: map<string, Batch>

    constructor()
      ensures batches == map[]
    {
      batches := map[];
    }

    /**
     * `start_playlist_download`: the entry it builds up step by step under
     * `playlistId`; every other entry stays as it was.
     */
    method StartPlaylistDownload(playlistId: string, members: seq<Member>, formatType: string,
                                 tempRoot: string, stamp: string, zipWritten: bool)
      modifies this
      ensures batches == old(batches)[playlistId := PlaylistOutcome(members, formatType, tempRoot, stamp, zipWritten)]
    {
      var start := InitialBatch(|members|);
      var entry := start;
      batches := batches[playlistId := entry];
      var i := 0;
      while i < |members|
        invariant 0 <= i <= |members|
        invariant batches == old(batches)[playlistId := entry]
        invariant RunMembers(entry, members[i..], formatType) == RunMembers(start, members, formatType)
      {
        var step := MemberPass(entry, members[i], formatType);
        RunAfterStep(entry, members, i, formatType, step);
        if step.Escaped? {
          OutcomeAfterRun(members, formatType, tempRoot, stamp, zipWritten, step);
          batches := batches[playlistId := step.batch.(status := Failed)];
          return;
        }
        entry := step.batch;
        batches := batches[playlistId := entry];
        i := i + 1;
      }
      assert RunMembers(entry, members[i..], formatType) == Continued(entry);
      OutcomeAfterRun(members, formatType, tempRoot, stamp, zipWritten, Continued(entry));
      if !zipWritten {
        batches := batches[playlistId := entry.(status := Failed)];
        return;
      }
      batches := batches[playlistId := entry.(status := Completed, zipFile := Some(ZipName(tempRoot, stamp)))];
    }
  }
}
