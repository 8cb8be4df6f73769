/**
 * The format selector inside `extract_video_info`, as specification
 * functions that follow the source step by step: the filtering and
 * classification loop, the `.mp4` restriction, the dictionary-keyed grouping
 * that keeps the last member of each group, and the assembly of the offer
 * list. Each function describes one block of the source; their properties
 * are proved in FormatGrouping and FormatOffers, and the loop implementation
 * in FormatSelection is proved equal to `SelectOffers`.
 */
module Formats {
  import opened Wrappers
  import opened PyStr
  import FileSize

  /** A format record as the extractor lists it; `None` marks a missing key (or a null size). */
  datatype RawFormat = RawFormat(
    formatId: Option<string>,
    resolution: Option<string>,
    ext: Option<string>,
    filesize: Option<int>,
    vcodec: Option<string>,
    acodec: Option<string>)

  /**
   * The `filesize` entry of a format record: the text "Unknown", a rendered
   * size such as "12.34 MB", or `None` when `get_filesize` falls off its loop.
   */
  datatype SizeText = Unknown | Shown(text: string) | Absent

  /** The `format_info` dictionary built for each listed format. */
  datatype FormatInfo = FormatInfo(
    formatId: string,
    resolution: string,
    ext: string,
    filesize: SizeText,
    vcodec: string,
    acodec: string)

  /** The `type` entry of an offer. */
  datatype Kind = Video | Audio

  /** One entry of `video_details['formats']`: a copy of a format record with its ids and type set. */
  datatype Offer = Offer(info: FormatInfo, formatId: string, audioFormatId: Option<string>, kind: Kind)

  /** The two-decimal rendering of `size / 1024^k` for a unit; floats are not modelled. */
  type Renderer = (int, FileSize.SizeUnit) -> string

  /** `get_filesize(format.get('filesize', 0))`. */
  function SizeTextOf(size: Option<int>, render: Renderer): SizeText {
    match FileSize.SizeLabelOf(size)
    case Unknown => Unknown
    case NoLabel => Absent
    case InUnit(u) => Shown(render(size.value, u) + " " + FileSize.UnitName(u))
  }

  /** The `format_info` dictionary, with the source's defaults for missing keys. */
  function ToInfo(r: RawFormat, render: Renderer): FormatInfo {
    FormatInfo(
      r.formatId.GetOr(""),
      r.resolution.GetOr("Unknown"),
      r.ext.GetOr(""),
      SizeTextOf(r.filesize, render),
      r.vcodec.GetOr("None"),
      r.acodec.GetOr("None"))
  }

  predicate ListedExt(ext: Option<string>) {
    ext == Some("mp4") || ext == Some("webm") || ext == Some("m4a")
  }

  predicate VideoOnly(f: FormatInfo) {
    f.vcodec != "none" && f.acodec == "none"
  }

  predicate AudioOnly(f: FormatInfo) {
    f.acodec != "none" && f.vcodec == "none"
  }

  predicate IsTrack(kind: Kind, f: FormatInfo) {
    if kind == Video then VideoOnly(f) else AudioOnly(f)
  }

  /** The first loop keeps a raw format in the `kind` list: listed extension, known size, one track only. */
  predicate Admits(kind: Kind, r: RawFormat, render: Renderer) {
    ListedExt(r.ext) && !ToInfo(r, render).filesize.Unknown? && IsTrack(kind, ToInfo(r, render))
  }

  /** `video_formats` (kind Video) or `audio_formats` (kind Audio) after the first loop. */
  function Candidates(kind: Kind, raws: seq<RawFormat>, render: Renderer): seq<FormatInfo>
    decreases |raws|
  {
    if raws == [] then []
    else
      var r := raws[|raws| - 1];
      Candidates(kind, raws[..|raws| - 1], render) + (if Admits(kind, r, render) then [ToInfo(r, render)] else [])
  }

  /** `[i for i in video_formats if i['ext'] == 'mp4']`. */
  function Mp4Only(vs: seq<FormatInfo>): seq<FormatInfo>
    decreases |vs|
  {
    if vs == [] then []
    else Mp4Only(vs[..|vs| - 1]) + (if vs[|vs| - 1].ext == "mp4" then [vs[|vs| - 1]] else [])
  }

  /** Every video record can be turned into a key: a `None` size makes the concatenation raise. */
  predicate Keyable(kind: Kind, xs: seq<FormatInfo>) {
    kind == Video ==> forall i :: 0 <= i < |xs| ==> xs[i].filesize.Shown?
  }

  /** Dictionary key of a record: `resolution + "-" + filesize` for video, `ext` for audio. */
  function KeyOf(kind: Kind, f: FormatInfo): string
    requires kind == Video ==> f.filesize.Shown?
  {
    if kind == Video then f.resolution + "-" + f.filesize.text else f.ext
  }

  /** The keys of the records, one per record, in order. */
  function KeysOf(kind: Kind, xs: seq<FormatInfo>): (ks: seq<string>)
    requires Keyable(kind, xs)
    ensures |ks| == |xs|
    ensures forall j :: 0 <= j < |xs| ==> ks[j] == KeyOf(kind, xs[j])
    decreases |xs|
  {
    if xs == [] then []
    else KeysOf(kind, xs[..|xs| - 1]) + [KeyOf(kind, xs[|xs| - 1])]
  }

  /**
   * The keys of a Python dictionary after assigning `d[k] = 1` for each `k`
   * in turn: each key once, in the order of its first assignment.
   */
  function Distinct(ks: seq<string>): (d: seq<string>)
    ensures forall k :: k in d <==> k in ks
    decreases |ks|
  {
    if ks == [] then []
    else
      var d := Distinct(ks[..|ks| - 1]);
      var k := ks[|ks| - 1];
      assert forall x :: x in ks <==> x in ks[..|ks| - 1] || x == k by {
        assert ks == ks[..|ks| - 1] + [k];
      }
      if k in d then d else d + [k]
  }

  /** Keys of `video_dictionary` / `audio_dictionary`. */
  function DictKeys(kind: Kind, xs: seq<FormatInfo>): seq<string>
    requires Keyable(kind, xs)
  {
    Distinct(KeysOf(kind, xs))
  }

  /** Every video key holds the '-' that was put between resolution and size. */
  predicate KeysFit(kind: Kind, keys: seq<string>) {
    kind == Video ==> forall i :: 0 <= i < |keys| ==> '-' in keys[i]
  }

  /**
   * The membership test of the grouping loops: for video
   * `resolution == k.split('-')[0] and filesize == k.split('-')[1]`, for
   * audio `ext == k.split('-')[0]`.
   */
  predicate InGroup(kind: Kind, k: string, f: FormatInfo)
    requires kind == Video ==> '-' in k
  {
    var parts := Split(k, '-');
    if kind == Video then f.resolution == parts[0] && f.filesize == Shown(parts[1])
    else f.ext == parts[0]
  }

  /** `temp_videos` / `temp_audios` for key `k`: the members in input order. */
  function Group(kind: Kind, xs: seq<FormatInfo>, k: string): seq<FormatInfo>
    requires kind == Video ==> '-' in k
    decreases |xs|
  {
    if xs == [] then []
    else Group(kind, xs[..|xs| - 1], k) + (if InGroup(kind, k, xs[|xs| - 1]) then [xs[|xs| - 1]] else [])
  }

  /**
   * `actual_videos` / `actual_audios`: for each key in order the last member
   * of its group; an empty group makes `temp[-1]` raise, and the result is `None`.
   */
  function Collect(kind: Kind, xs: seq<FormatInfo>, keys: seq<string>): Option<seq<FormatInfo>>
    requires KeysFit(kind, keys)
    decreases |keys|
  {
    if keys == [] then Some([])
    else
      match Collect(kind, xs, keys[..|keys| - 1])
      case None => None
      case Some(rs) =>
        var g := Group(kind, xs, keys[|keys| - 1]);
        if g == [] then None else Some(rs + [g[|g| - 1]])
  }

  lemma VideoKeysFit(kind: Kind, xs: seq<FormatInfo>)
    requires Keyable(kind, xs)
    ensures KeysFit(kind, DictKeys(kind, xs))
  {
    if kind == Video {
      var ks := KeysOf(kind, xs);
      forall k | k in Distinct(ks) ensures '-' in k {
        var j :| 0 <= j < |ks| && ks[j] == k;
        assert k[|xs[j].resolution|] == '-';
      }
    }
  }

  /** The grouping step as a whole; a `None` size raises while the keys are built. */
  function Representatives(kind: Kind, xs: seq<FormatInfo>): Option<seq<FormatInfo>> {
    if !Keyable(kind, xs) then None
    else
      VideoKeysFit(kind, xs);
      Collect(kind, xs, DictKeys(kind, xs))
  }

  /** The video-only `.mp4` records the grouping step works on. */
  function VideoPool(raws: seq<RawFormat>, render: Renderer): seq<FormatInfo> {
    Mp4Only(Candidates(Video, raws, render))
  }

  function AudioPool(raws: seq<RawFormat>, render: Renderer): seq<FormatInfo> {
    Candidates(Audio, raws, render)
  }

  /** A video representative paired with an audio one: composite id `v+a`. */
  function Combined(v: FormatInfo, a: FormatInfo): Offer {
    Offer(v, v.formatId + "+" + a.formatId, Some(a.formatId), Video)
  }

  /** An audio representative offered on its own. */
  function Solo(a: FormatInfo): Offer {
    Offer(a, a.formatId, Some(a.formatId), Audio)
  }

  /** `audio_formats[-1:]`. */
  function LastOnly(audios: seq<FormatInfo>): seq<FormatInfo> {
    if audios == [] then [] else audios[|audios| - 1..]
  }

  /** The first offer loop: each video representative with each audio in `audio_formats[-1:]`. */
  function VideoOffers(videos: seq<FormatInfo>, audios: seq<FormatInfo>): seq<Offer>
    decreases |videos|
  {
    if videos == [] then []
    else
      var v := videos[|videos| - 1];
      VideoOffers(videos[..|videos| - 1], audios) + PairWith(v, LastOnly(audios))
  }

  function PairWith(v: FormatInfo, audios: seq<FormatInfo>): seq<Offer>
    decreases |audios|
  {
    if audios == [] then []
    else PairWith(v, audios[..|audios| - 1]) + [Combined(v, audios[|audios| - 1])]
  }

  /** The second offer loop. */
  function AudioOffers(audios: seq<FormatInfo>): seq<Offer>
    decreases |audios|
  {
    if audios == [] then []
    else AudioOffers(audios[..|audios| - 1]) + [Solo(audios[|audios| - 1])]
  }

  /**
   * `video_details['formats']` for a list of raw formats, or `None` when the
   * selection raises (the caller then returns `None` for the whole lookup).
   */
  function SelectOffers(raws: seq<RawFormat>, render: Renderer): Option<seq<Offer>> {
    var videos := Representatives(Video, VideoPool(raws, render));
    var audios := Representatives(Audio, AudioPool(raws, render));
    if videos.None? || audios.None? then None
    else Some(VideoOffers(videos.value, audios.value) + AudioOffers(audios.value))
  }

  /**
   * `extract_video_info` seen through its formats: `listing` is `None` when
   * the extractor raised, otherwise its `formats` list (empty when missing).
   */
  function ExtractVideoInfo(listing: Option<seq<RawFormat>>, render: Renderer): Option<seq<Offer>> {
    match listing
    case None => None
    case Some(raws) => SelectOffers(raws, render)
  }
}
