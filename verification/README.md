# yt_downloader orchestration core in Dafny

This project models the part of the yt_downloader Django application that
decides things, and proves properties of that model. That part covers:

- the URL check;
- the choice of a size unit;
- the format selector of `extract_video_info`, which turns the extractor's list of format records into the offers shown to the user;
- the splitting of a posted `format_id`;
- the download ids;
- the record a background single download (`process_download`) leaves in the progress map;
- the bookkeeping of a playlist batch (`start_playlist_download`).

yt_dlp, ffmpeg, the file system, threads and Django are not modelled. What
they do is an input:

- `Fetch` is the outcome of one yt_dlp download: a file name, or an exception.
- `ProcessRun` is how the ffmpeg process ended.
- `MergeOutcome` is what a call site of `merge_video_audio` observes.
- Booleans stand for `os.path.exists` answers and for whether the archive was written.
- A `Renderer` function stands for the two-decimal float rendering of a size.
- A time stamp string stands for `datetime.now()`.

Modules:

- `Wrappers`: the `Option` type.
- `PyStr`: the Python string operations the code relies on, with their exact semantics:
  - truthiness;
  - `startswith`;
  - substring `in`;
  - `str.split` on one character;
  - POSIX `os.path.basename` and `os.path.join`.
- `UrlCheck`: `validate_youtube_url`.
- `FileSize`: `get_filesize`'s unit choice, as a specification function plus the loop proved against it.
- `Formats`: the selector written as specification functions, one per block of the source.
- `FormatGrouping` and `FormatOffers`: what the selector computes.
  - Grouping by key keeps the last member of each group, in order of first appearance.
  - Every video offer is paired with the last audio representative.
  - The list is laid out as all video offers, then all audio offers.
  - Every offer stems from an admitted format.
  - They also state when the selection raises.
- `FormatSelection`: the loops of `extract_video_info`. Each loop is proved equal to its specification function, and the whole is proved equal to `SelectOffers`.
- `Download`: `download_video` and `merge_video_audio` over tool outcomes. `MergeCallAsWritten` is the four-argument call as it appears in the views. `MergeCallIntended` is the three-argument call.
- `Jobs`:
  - `format_id` splitting and the download ids;
  - the reply of `start_download`;
  - `JobOutcome`, the record `process_download` writes;
  - the class `JobProgress`, whose method `ProcessDownload` writes that record into its map step by step.
- `Playlist`:
  - the first-match format pick;
  - one member's pass through the loop, and the run over all members;
  - the final batch entry;
  - the class `PlaylistProgress`, whose method `StartPlaylistDownload` updates the batch entry in a loop.

The model follows the code. Several behaviours of the code are easy to
miss and are stated here as facts:

- **Record statuses.** The code writes only `completed` and `error` records. It never writes intermediate stages or a percentage.
- **Failed merge.** A merge that returns `False` is not an error: the job still completes and serves the unmerged video.
- **Exception inside the playlist loop.** The playlist loop has no per-member exception handler. An exception in one member (here, the merge call) ends the whole batch as `failed`, and later members are not processed.
- **Merge output path.** The merge output path is built from the video file's own basename inside the same temporary directory. When the video was written there, the output path is the video path itself (`Jobs.MergeOutputIsVideoPath`). ffmpeg would then be asked to overwrite its own input, and the `os.remove(video_path)` after a successful merge would delete the file the record serves. The merge never gets that far as written (see Findings), and file removal is not modelled.
- **Repeated offers.** The video grouping decodes its keys with `split('-')`. A '-' inside a resolution or size text can make one key select another group's record. That record is then offered twice under one id, and the dashed record is dropped (`OfferIds.DashedKeysRepeatOffer`). Without such dashes, and with unique '+'-free extractor ids, no id is offered twice (`OfferIds.OfferIdsDistinct`).
- **Nothing to offer.** When nothing survives the filters, the selector returns an empty offer list rather than an error.

## Model

| member | source | states |
|---|---|---|
| UrlCheck.ValidateYoutubeUrl | downloader/utils.py:11-28 | A non-string URL gives "Invalid url". Otherwise the URL is accepted exactly when it starts with `http://` or `https://` and `youtube.com` or `youtu.be` occurs in it. A bad scheme gives "Invalid URL format" whatever the host. A good scheme without a YouTube host gives "Not a valid YouTube url". |
| PyStr.ContainsIsOccurs | downloader/utils.py:23 | The scanning `in` test holds exactly when the substring occurs at some position. |
| PyStr.Contains | downloader/utils.py:23 | Defines `t in s` by scanning from the left. `PyStr.ContainsIsOccurs` states its meaning. |
| PyStr.Split | downloader/views.py:377-378 | `split` yields at least one piece, and at least two exactly when the separator occurs. |
| PyStr.SplitWithoutSeparator | downloader/views.py:377-378 | A text without the separator splits into itself alone. |
| PyStr.SplitAfterFirst | downloader/views.py:377-378 | Splitting `a` + separator + `b`, with `a` separator-free, gives `a` followed by the pieces of `b`. |
| PyStr.SplitHead | downloader/views.py:377-378 | The first piece is the separator-free prefix before the first separator. The remaining pieces are the split of what follows it. |
| PyStr.SplitPair | downloader/views.py:279-280 | Two separator-free texts joined by the separator split back into exactly those two. |
| PyStr.BasenameShape | downloader/views.py:402 | `os.path.basename` returns a '/'-free suffix of the path, preceded by '/' unless it is the whole path. |
| PyStr.BasenameAfterSlash | downloader/views.py:397 | A '/'-free name written after a directory ending in '/' is its own basename. |
| PyStr.BasenameOfJoin | downloader/views.py:393-402 | The basename of `join(dir, basename(p))` is `basename(p)`. |
| PyStr.Basename | downloader/views.py:393 | Defines POSIX `os.path.basename`: the text after the last '/'. `PyStr.BasenameShape` states its shape. |
| PyStr.Join | downloader/views.py:397 | Defines POSIX `os.path.join` for two parts: an absolute second part wins, and a '/' is inserted unless the first part is empty or ends in one. `PyStr.BasenameOfJoin` relates it to `Basename`. |
| FileSize.LabelScale | downloader/utils.py:176-182 | For a positive byte count, the chosen unit k satisfies 1024^k ≤ n < 1024^(k+1). No unit is chosen exactly when n ≥ 1024^4. A positive size is never "Unknown". |
| FileSize.SizeLabelOf | downloader/utils.py:176-182 | Defines the label by byte thresholds: "Unknown" for a missing or zero size, B below 1024, KB below 1024^2, MB below 1024^3, GB below 1024^4, none above. `FileSize.LabelScale` states its meaning and `FileSize.GetFilesize` is the loop proved equal to it. |
| FileSize.GetFilesize | downloader/utils.py:166-182 | The dividing loop returns the label of `SizeLabelOf`: "Unknown" for a missing or zero size, then B/KB/MB/GB by the 1024 thresholds, and `None` from 1024^4 on. |
| Formats.KeysOf | downloader/utils.py:84-85 | One key per record: `resolution-size` for video, the extension for audio. |
| Formats.Distinct | downloader/utils.py:84-85 | The keys of the filled dictionary are exactly the keys assigned. |
| Formats.VideoKeysFit | downloader/utils.py:85 | Every video dictionary key contains the '-' put between resolution and size. |
| Formats.ToInfo | downloader/utils.py:64-72 | Defines the `format_info` record with the source's defaults for missing keys. |
| Formats.Candidates | downloader/utils.py:62-80 | Defines the video and audio lists of the first loop. `FormatOffers.CandidatesAdmitted` and `FormatOffers.CandidatesContain` characterise them, and `FormatSelection.Classify` is the loop proved equal. |
| Formats.Mp4Only | downloader/utils.py:82 | Defines the `.mp4` comprehension. `FormatOffers.Mp4OnlyKeeps` and `FormatOffers.Mp4OnlyContains` characterise it. |
| Formats.Group | downloader/utils.py:88-91 | Defines `temp_videos` / `temp_audios` for one key. `FormatGrouping.GroupLast` characterises it. |
| Formats.Collect | downloader/utils.py:87-103 | Defines `actual_videos` / `actual_audios`, or `None` on an empty group. `FormatGrouping.CollectShape` characterises it. |
| Formats.Representatives | downloader/utils.py:84-103 | Defines the grouping step as a whole. `FormatGrouping.GroupingKeepsLastOfEachGroup` and `OfferIds.DashedPairFolds` state what it keeps. |
| Formats.VideoOffers | downloader/utils.py:107-113 | Defines the first offer loop. `FormatOffers.VideoOffersShape` characterises it. |
| Formats.AudioOffers | downloader/utils.py:114-119 | Defines the second offer loop. `FormatOffers.AudioOffersShape` characterises it. |
| Formats.SelectOffers | downloader/utils.py:58-120 | Defines the selector's result. `FormatOffers.OfferLayout`, `FormatOffers.OffersStemFromAdmittedFormats` and `OfferIds.OfferIdsDistinct` state its properties. |
| Formats.ExtractVideoInfo | downloader/utils.py:40-124 | Defines the lookup seen through its formats: `None` when the extractor raises. `FormatSelection.ExtractFormats` is proved equal to it. |
| FormatGrouping.DistinctOrder | downloader/utils.py:84-87 | Dictionary keys hold no duplicate and come in the order of their first assignment. |
| FormatGrouping.GroupLast | downloader/utils.py:88-92 | A key's group is non-empty exactly when some record passes the split-key test. Its last member is the last such record of the input. |
| FormatGrouping.CollectShape | downloader/utils.py:87-92 | The grouping loop succeeds exactly when no group is empty. It then returns, key by key, the last member of that key's group. |
| FormatGrouping.CollectSucceeds | downloader/utils.py:87-92 | `temp[-1]` raises for some key exactly when that key's group is empty. |
| FormatGrouping.CollectValues | downloader/utils.py:87-92 | The i-th representative is the last member of the i-th key's group. |
| FormatGrouping.CleanKeys | downloader/utils.py:85-90 | When the key fields contain no '-', the split-key test and key equality both mean "same resolution and size text" (video) or "same extension" (audio). |
| FormatGrouping.FirstOfGroupIsFirstKey | downloader/utils.py:84-87 | On clean records the first record of a group sits where the group's dictionary key is first assigned. |
| FormatGrouping.CleanGroupingSucceeds | downloader/utils.py:84-103 | When no key field contains '-', every key can be built, every group is non-empty and the grouping does not raise. |
| FormatGrouping.CleanRepresentative | downloader/utils.py:87-92 | Each representative is the last input record of its (resolution, size) or extension group. |
| FormatGrouping.CleanLastOfGroups | downloader/utils.py:87-103 | Every representative is the last record of its group in the input. |
| FormatGrouping.CleanOnePerGroup | downloader/utils.py:84-103 | No two representatives share a group. |
| FormatGrouping.CleanCoversAll | downloader/utils.py:84-103 | Every input record's group has a representative. |
| FormatGrouping.CleanFirstAppearanceOrder | downloader/utils.py:84-103 | Representatives come in the order of their group's first record in the input. |
| FormatGrouping.GroupingKeepsLastOfEachGroup | downloader/utils.py:84-103 | On clean input the grouping succeeds and returns exactly one record per group: the group's last, with groups in order of first appearance. |
| FormatOffers.CandidatesAdmitted | downloader/utils.py:62-80 | Every record in the video (audio) list comes from a raw format with a listed extension and a known size, with a video codec and no audio codec (or the reverse). |
| FormatOffers.CandidatesContain | downloader/utils.py:62-80 | Every admitted raw format's record is in its list, so formats with both or neither codec are the only ones dropped by classification. |
| FormatOffers.Mp4OnlyKeeps | downloader/utils.py:82 | The comprehension keeps only `.mp4` records from its input. |
| FormatOffers.Mp4OnlyContains | downloader/utils.py:82 | Every `.mp4` record is kept. |
| FormatOffers.RepresentativesFromInput | downloader/utils.py:87-103 | Representatives are drawn from the grouped list. |
| FormatOffers.PairWithShape | downloader/utils.py:108-113 | The inner loop yields one `v+a` offer per audio record, in order. |
| FormatOffers.VideoOffersShape | downloader/utils.py:107-113 | With no audio representative there is no video offer. Otherwise each video representative yields one offer with id `videoId+lastAudioId` and audio id `lastAudioId`. |
| FormatOffers.AudioOffersShape | downloader/utils.py:114-119 | One audio offer per audio representative, in order, whose id and audio id are both its own id. |
| FormatOffers.OfferLayout | downloader/utils.py:105-119 | The list is all video offers followed by all audio offers, so its length is \|V\|·min(1,\|A\|)+\|A\|. Every offer's fields are fixed by its representative and the last audio representative. |
| FormatOffers.LayoutAt | downloader/utils.py:107-119 | The k-th offer is a video offer from the k-th video representative, or the audio offer of its audio representative. |
| FormatOffers.VideoOffersShareAudio | downloader/utils.py:107-113 | All video offers name the same audio format: the last audio representative. |
| FormatOffers.VideoRepresentativeAdmitted | downloader/utils.py:62-92 | A video representative is the record of an admitted `.mp4` video-only raw format with a size text. |
| FormatOffers.AudioRepresentativeAdmitted | downloader/utils.py:62-103 | An audio representative is the record of an admitted audio-only raw format. |
| FormatOffers.AdmittedStems | downloader/utils.py:62-82 | An offer built on an admitted record stems from an admitted raw format. |
| FormatOffers.OffersStemFromAdmittedFormats | downloader/utils.py:62-119 | Every offer stems from a raw format with a listed extension and a known non-zero size. A video offer stems from an `.mp4` format with a video codec and no audio codec. An audio offer stems from the reverse. |
| FormatOffers.AudioGroupingSucceeds | downloader/utils.py:94-103 | Audio grouping never raises: the listed extensions contain no '-'. |
| FormatOffers.SelectionSucceeds | downloader/utils.py:84-103 | The selection succeeds exactly when the video grouping does. It always succeeds when every `.mp4` video record has a size text and no '-' in its resolution or size text. |
| FormatOffers.HugeVideoSizeFails | downloader/utils.py:82-85 | An `.mp4` video-only format of 1024^4 bytes or more gets no size text. Building its key then raises, so the lookup returns `None`. |
| FormatOffers.DashedResolutionFails | downloader/utils.py:87-92 | A record with a '-' in its resolution misses its own group: the first piece of its key is shorter than its resolution. If no other record of the pool passes the test for that key, the group is empty, `temp_videos[-1]` raises and the lookup returns `None`. |
| OfferIds.CandidateIds | downloader/utils.py:62-80 | When the extractor's kept formats have present, unique, '+'-free ids, each candidate record's id is '+'-free and names that record only. |
| OfferIds.RepresentativeIds | downloader/utils.py:84-103 | On a clean, uniquely identified list the representatives have pairwise distinct '+'-free ids. |
| OfferIds.LayoutIds | downloader/utils.py:105-119 | Video offer ids differ in their video part. Each holds a '+' that no audio offer id holds. Audio offers carry their own distinct ids. |
| OfferIds.OfferIdsDistinct | downloader/utils.py:58-120 | With unique '+'-free extractor ids and no '-' in the `.mp4` video records' resolutions and size texts, the selection succeeds and no `format_id` is offered twice. |
| OfferIds.DashedPairFolds | downloader/utils.py:84-92 | A record whose resolution is another record's `resolution-size` text, with the same size text, is swallowed. The grouping returns the other record twice. |
| OfferIds.DashedKeysRepeatOffer | downloader/utils.py:58-120 | On three uniquely identified formats, one with resolution "a-x B", the selection succeeds but offers the id "2+3" twice and drops format "1". |
| FormatSelection.Classify | downloader/utils.py:62-80 | The classification loop builds exactly the video and audio candidate lists. |
| FormatSelection.KeepMp4 | downloader/utils.py:82 | The loop keeps exactly the `.mp4` records, in order. |
| FormatSelection.DictionaryKeys | downloader/utils.py:84-85 | Filling the dictionary yields its key list. It raises exactly when a video record has no size text. |
| FormatSelection.DictKeysStep | downloader/utils.py:85 | One more assignment adds its key at the end if the key is new, and changes nothing otherwise. |
| FormatSelection.CollectNoneExtends | downloader/utils.py:87-92 | Once one key's group is empty the whole grouping raises. |
| FormatSelection.LastOfEachGroup | downloader/utils.py:87-103 | The nested grouping loops compute `Collect`: the last member per key, or `None` on an empty group. |
| FormatSelection.AssembleOffers | downloader/utils.py:107-119 | The two offer loops produce the video offers followed by the audio offers. |
| FormatSelection.SelectFormats | downloader/utils.py:58-120 | The whole selector equals `SelectOffers`, and with it every property proved above. |
| FormatSelection.ExtractFormats | downloader/utils.py:40-124 | A failed extraction gives `None`. Otherwise the result is the selector's result. |
| Download.DownloadVideo | downloader/utils.py:126-164 | The video path is present exactly when the video download succeeded and, if an audio id was given, the audio download too. The audio path is present exactly when the video path is present and an audio id was given. Both paths are the files the downloads produced. |
| Download.AudioIgnoredWithoutId | downloader/utils.py:150-158 | Without an audio id the audio download plays no part and no audio path is returned. |
| Download.MergeVideoAudio | downloader/utils.py:184-218 | The merge reports success exactly when ffmpeg exits with status 0. |
| Download.MergeCallAsWritten | downloader/views.py:398 | The four-argument call raises Python's arity `TypeError` whatever ffmpeg would do. |
| Download.MergeCallIntended | downloader/utils.py:184-218 | The three-argument call never raises, and reports `Merged` exactly when the merge succeeds. |
| Jobs.SplitFormatId | downloader/views.py:377-378 | An id without '+' gives itself and no audio id. An audio id is present exactly when the id contains '+'. |
| Jobs.SplitFormatIdPieces | downloader/views.py:377-378 | The video id is the '+'-free text before the first '+'. The audio id is the '+'-free text after it, up to the next '+' or the end. |
| Jobs.SplitComposite | downloader/views.py:279-280 | `v+a` with '+'-free parts splits into `v` and `a`; for example "v1+a1" gives ("v1", "a1"). |
| Jobs.SplitDropsThirdPart | downloader/views.py:377-378 | Text after a second '+' is ignored. |
| Jobs.OfferedIdsSplitBack | downloader/views.py:377-378 | A posted video offer id splits into its video id and its audio id. A posted audio offer id splits into its own id and no audio id. |
| Jobs.BackgroundDownloadId | downloader/views.py:346 | The background id starts with the URL, ends with '+', and is two characters longer than URL and format id together. |
| Jobs.SyncDownloadId | downloader/views.py:297 | The synchronous id starts with the URL and is one character longer than URL and format id together. |
| Jobs.DownloadIdsRelated | downloader/views.py:346 | The background id is the synchronous id plus '+', so the two never coincide. |
| Jobs.BackgroundIdDeterminesFormat | downloader/views.py:346 | For one URL, equal background ids mean equal format ids. |
| Jobs.BackgroundIdsCollideAcrossUrls | downloader/views.py:346 | Across URLs ids can collide: ("a_b", "c") and ("a", "b_c") get the same id. |
| Jobs.StartDownload | downloader/views.py:335-360 | A POST with a non-empty URL and format id starts a job under its background id. A POST missing either gets "Missing URL or format selection". Any other method gets "Invalid request". |
| Jobs.MergeAttempted | downloader/views.py:385-396 | Defines when the merge is called: the video path passed the check of line 385, the audio path is truthy and its file exists, and the format id carries an audio id. `Jobs.NoMergeServesVideo` and `Jobs.MergeDecidesRecord` state its two sides. |
| Jobs.JobOutcome | downloader/views.py:362-422 | An error record carries the purge exception, "Download failed" or the exception raised by an attempted merge, and nothing else. |
| Jobs.MissingVideoFails | downloader/views.py:385-390 | A missing or vanished video gives exactly the "Download failed" record, whatever the merge outcome. |
| Jobs.NoMergeServesVideo | downloader/views.py:392-408 | Without a merge attempt the record serves the downloaded video under its basename, independent of the merge outcome. |
| Jobs.MergeDecidesRecord | downloader/views.py:396-416 | When the merge is attempted, its three outcomes give three records. `True` serves the merge output under its basename. `False` serves the unmerged video. An exception gives an error record with its text. |
| Jobs.CompletedNamesItsFile | downloader/views.py:393-408 | A completed record's `filename` is the basename of its `file_path`. |
| Jobs.SoloFormatIgnoresAudio | downloader/views.py:377-396 | For a format id without '+', the record does not depend on the audio download, the audio file or the merge. |
| Jobs.MergeOutputIsVideoPath | downloader/views.py:393-397 | When the video was written into the temporary directory under a plain name, the merge output path is the video path itself. |
| Jobs.MergeAsWrittenFailsJob | downloader/views.py:398 | As written, every job that reaches the merge ends in an error record carrying the arity message. |
| Jobs.MergeIntendedCompletesJob | downloader/views.py:396-408 | With the three-argument call, every job that reaches the merge completes. It serves the merge output exactly when ffmpeg succeeded, and the unmerged video otherwise. |
| Jobs.JobProgress.ProcessDownload | downloader/views.py:362-422 | The method writes `JobOutcome` under the download id and leaves every other record unchanged. |
| Playlist.FirstOffer | downloader/views.py:50-59 | A picked offer is of the requested type. An audio pick has its audio id cleared. |
| Playlist.FirstOfferIsFirstMatch | downloader/views.py:50-59 | The pick finds an offer exactly when one matches the type. It then returns the first match. An unknown type matches nothing. |
| Playlist.PickFormat | downloader/views.py:50-59 | The loop with `break` returns the first-match pick. |
| Playlist.InitialBatch | downloader/views.py:34-40 | A batch starts with `current` 0, `total` the member count, status `downloading`, both lists empty and no archive. |
| Playlist.MemberStep | downloader/views.py:43-85 | Defines one member's pass through the loop. `Playlist.StepRecordsTitleOnce` and `Playlist.CompletionFollowsVideoPath` characterise it. |
| Playlist.RunMembers | downloader/views.py:42-85 | Defines the loop over the members, ended by the first exception. `Playlist.RunAccounts` and `Playlist.EscapeSkipsRest` characterise it. |
| Playlist.PlaylistOutcome | downloader/views.py:28-103 | Defines the final batch entry. `Playlist.OutcomeStatus` characterises it. |
| Playlist.StepRecordsTitleOnce | downloader/views.py:43-85 | Each member without an exception adds its title to exactly one of the two lists. A member that stops before the download (no details, no formats, no matching offer) adds it to `failed_videos` and changes nothing else. `current` is bumped exactly when the member reached the download. An exception leaves the entry untouched. |
| Playlist.CompletionFollowsVideoPath | downloader/views.py:73-83 | A member that reached the download counts as completed exactly when its video path is present. A merge that does not raise has no influence. |
| Playlist.AudioMemberNeverEscapes | downloader/views.py:52-75 | An audio pick downloads no audio track, so no merge is attempted and the batch goes on. |
| Playlist.AudioRunContinues | downloader/views.py:43-85 | A run of audio picks never leaves the loop by an exception. |
| Playlist.MergeAsWrittenStopsBatch | downloader/views.py:75-77 | As written, the first video member whose audio download succeeds stops the batch at the merge call. |
| Playlist.MergeIntendedKeepsBatchGoing | downloader/views.py:73-85 | With the three-argument call no member stops the batch. Each member that reached the download bumps `current` and is completed exactly when its video path is present. |
| Playlist.RunAccounts | downloader/views.py:43-85 | Earlier titles stay in place and `current` ≤ recorded titles is preserved. Without an exception every member is recorded once. With one, some member is left unrecorded. |
| Playlist.EscapeSkipsRest | downloader/views.py:42-100 | Once a member raises, the run ends there: the members after it are never processed, and the entry is the one that stood before that member. |
| Playlist.OutcomeStatus | downloader/views.py:88-100 | The batch ends `completed`, with the archive name, exactly when the loop finished and the archive was written; every member is then recorded. Otherwise it ends `failed` with no archive. `current` never exceeds the titles recorded. |
| Playlist.AudioBatchCompletes | downloader/views.py:43-96 | An audio batch whose archive is written always ends `completed`. |
| Playlist.MemberPass | downloader/views.py:44-85 | One pass of the loop body gives exactly the member step. |
| Playlist.PlaylistProgress.StartPlaylistDownload | downloader/views.py:28-103 | The method writes the final batch entry under the playlist id and leaves every other entry unchanged. |

## Left out

- yt_dlp metadata extraction (`extract_info`, `prepare_filename`) and the ffmpeg subprocess are outcomes (`Fetch`, `ProcessRun`), because they are foreign calls.
  - The `title`, `thumbnail` and `url` fields of `video_details` are not modelled.
  - The `tbr` field of a format record is not modelled; the selector never reads it.
- Float division and the `.2f` rendering of `get_filesize` are the `Renderer` parameter. Only the integer unit choice is modelled.
- A format key present with a null value is not modelled (only missing keys, with the source's defaults). The exception is a null size, which `get_filesize` treats like a missing one.
- Threads: `start_download` and `download_playlist` start workers fire-and-forget. The shared `download_progress` maps are fields of `JobProgress` and `PlaylistProgress`, written one call at a time. Concurrent access is not modelled.
- `utils.download_progress` is not defined in utils.py, so it is not part of this model beyond the map field of `JobProgress`.
- File-system work is left out:
  - The purge of the temporary directory is only the exception text it may raise (`JobRun.purge`).
  - `os.remove` after a successful merge is taken not to raise.
  - The archive's contents (`os.walk`) are not modelled, and writing the archive is a boolean.
  - The `rmtree` in `finally` is not modelled.
- `download_vid` (the synchronous view) beyond its `format_id` split and its download id: the rest is file serving with `FileResponse` and otherwise mirrors `process_download`.
- `process_url`, history and pagination, `check_download_progress`, `check_video_progress`, `get_download_file`, `download_zip` and `download_playlist` are left out. They are request/response glue and dictionary lookups.
- `is_playlist_url` and `extract_playlist_info` are not defined in utils.py, so they are not part of this model.
- `views copy.py`, models.py and urls.py are left out (an older copy, ORM fields and routing).
- Percent, speed and ETA are not modelled: the code never computes them.
- Playlist.StartPlaylistDownload: each member's `extract_video_info` result is part of its input (`Member.details`). The selector that computes it from the format list is `FormatSelection.ExtractFormats`.
- Playlist.StartPlaylistDownload: the time stamp in the archive name is an input.
- OfferIds.OfferIdsDistinct: distinct offer ids are proved only for extractor ids that are present, unique and free of '+', and for `.mp4` video records without '-' in their resolution or size text. With such a dash the source can repeat an offer id, as `OfferIds.DashedKeysRepeatOffer` shows.
- FormatGrouping.GroupingKeepsLastOfEachGroup: the grouping properties are stated only for records whose key fields hold no '-'. With a '-' the source's split decoding may raise (`FormatOffers.DashedResolutionFails`) or merge groups, and that case is not characterised in general.

## Findings

| source | as written | input that shows it | evidently intended | confidence | as-written member | corrected member |
|---|---|---|---|---|---|---|
| downloader/views.py:398 | `merge_video_audio` is called with four positional arguments but declared with three (utils.py:184). The call raises `TypeError` before ffmpeg runs, and `process_download` records the error. | format id "137+140" with both downloads succeeding and both files present | the three-argument call, whose boolean result decides between the merged and the unmerged file | high; not executed | Jobs.MergeAsWrittenFailsJob | Jobs.MergeIntendedCompletesJob |
| downloader/views.py:77 | The same four-argument call inside the playlist loop. The exception leaves the loop, and the batch ends `failed` without archive. | a video batch whose first member's audio download succeeds | the three-argument call: the member is recorded and the batch continues | high; not executed | Playlist.MergeAsWrittenStopsBatch | Playlist.MergeIntendedKeepsBatchGoing |

The record models (`Jobs.JobOutcome`, `Playlist.MemberStep`) take the
call-site outcome as an input. `Download.MergeCallAsWritten` gives that
outcome for the code as written, and `Download.MergeCallIntended` for the
corrected call.
