/**
 * The format selector of `extract_video_info` as the loops the source runs:
 * one method per block, each proved equal to the specification function of
 * that block in Formats, and the whole proved equal to `SelectOffers`, whose
 * properties FormatGrouping and FormatOffers establish.
 */
module FormatSelection {
  import opened Wrappers
  import opened PyStr
  import opened Formats
  import FileSize

  /** The first loop: listed extensions with a known size, sorted into video-only and audio-only records. */
  method Classify(raws: seq<RawFormat>, render: Renderer) returns (videos: seq<FormatInfo>, audios: seq<FormatInfo>)
    ensures videos == Candidates(Video, raws, render)
    ensures audios == Candidates(Audio, raws, render)
  {
    videos, audios := [], [];
    var i := 0;
    while i < |raws|
      invariant 0 <= i <= |raws|
      invariant videos == Candidates(Video, raws[..i], render)
      invariant audios == Candidates(Audio, raws[..i], render)
    {
      var r := raws[i];
      assert raws[..i + 1][..i] == raws[..i];
      if ListedExt(r.ext) {
        var chosen := FileSize.GetFilesize(r.filesize);
        var size := match chosen
          case Unknown => Unknown
          case NoLabel => Absent
          case InUnit(u) => Shown(render(r.filesize.value, u) + " " + FileSize.UnitName(u));
        var info := FormatInfo(
          r.formatId.GetOr(""),
          r.resolution.GetOr("Unknown"),
          r.ext.GetOr(""),
          size,
          r.vcodec.GetOr("None"),
          r.acodec.GetOr("None"));
        assert info == ToInfo(r, render);
        if !info.filesize.Unknown? {
          if info.vcodec != "none" && info.acodec == "none" {
            videos := videos + [info];
          } else if info.acodec != "none" && info.vcodec == "none" {
            audios := audios + [info];
          }
        }
      }
      i := i + 1;
    }
    assert raws[..i] == raws;
  }

  /** The `.mp4` comprehension over the video records. */
  method KeepMp4(vs: seq<FormatInfo>) returns (kept: seq<FormatInfo>)
    ensures kept == Mp4Only(vs)
  {
    kept := [];
    var i := 0;
    while i < |vs|
      invariant 0 <= i <= |vs|
      invariant kept == Mp4Only(vs[..i])
    {
      assert vs[..i + 1][..i] == vs[..i];
      if vs[i].ext == "mp4" {
        kept := kept + [vs[i]];
      }
      i := i + 1;
    }
    assert vs[..i] == vs;
  }

  /**
   * Filling `video_dictionary` or `audio_dictionary`: the keys in order of
   * first assignment, or `None` when a video record has no size text and the
   * concatenation raises.
   */
  method DictionaryKeys(kind: Kind, xs: seq<FormatInfo>) returns (keys: Option<seq<string>>)
    ensures keys.Some? <==> Keyable(kind, xs)
    ensures keys.Some? ==> keys.value == DictKeys(kind, xs)
  {
    var ks: seq<string> := [];
    var i := 0;
    while i < |xs|
      invariant 0 <= i <= |xs|
      invariant Keyable(kind, xs[..i])
      invariant ks == DictKeys(kind, xs[..i])
    {
      var x := xs[i];
      if kind == Video && !x.filesize.Shown? {
        return None;
      }
      var k := if kind == Video then x.resolution + "-" + x.filesize.text else x.ext;
      DictKeysStep(kind, xs, i);
      if k !in ks {
        ks := ks + [k];
      }
      i := i + 1;
    }
    assert xs[..i] == xs;
    return Some(ks);
  }

  /** Helper: one more record assigns its key, which is new or already present. */
  lemma DictKeysStep(kind: Kind, xs: seq<FormatInfo>, i: nat)
    requires i < |xs| && Keyable(kind, xs[..i])
    requires kind == Video ==> xs[i].filesize.Shown?
    ensures Keyable(kind, xs[..i + 1])
    ensures var d := DictKeys(kind, xs[..i]);
      var k := KeyOf(kind, xs[i]);
      DictKeys(kind, xs[..i + 1]) == if k in d then d else d + [k]
  {
    var p := xs[..i + 1];
    assert p[..i] == xs[..i];
    var before := KeysOf(kind, xs[..i]);
    var after := KeysOf(kind, p);
    assert after == before + [KeyOf(kind, xs[i])];
    assert after[..|after| - 1] == before;
  }

  /** Once a prefix of the keys meets an empty group, so do all the keys. */
  lemma {:induction false} CollectNoneExtends(kind: Kind, xs: seq<FormatInfo>, keys: seq<string>, n: nat)
    requires KeysFit(kind, keys) && n <= |keys|
    requires Collect(kind, xs, keys[..n]) == None
    ensures Collect(kind, xs, keys) == None
    decreases |keys| - n
  {
    if n == |keys| {
      assert keys[..n] == keys;
    } else {
      assert keys[..n + 1][..n] == keys[..n];
      CollectNoneExtends(kind, xs, keys, n + 1);
    }
  }

  /**
   * The grouping loops: for every key the members whose fields match the
   * split key, and the last of them kept; an empty group raises.
   */
  method LastOfEachGroup(kind: Kind, xs: seq<FormatInfo>, keys: seq<string>) returns (reps: Option<seq<FormatInfo>>)
    requires KeysFit(kind, keys)
    ensures reps == Collect(kind, xs, keys)
  {
    var actual: seq<FormatInfo> := [];
    var i := 0;
    while i < |keys|
      invariant 0 <= i <= |keys|
      invariant Collect(kind, xs, keys[..i]) == Some(actual)
    {
      var k := keys[i];
      var temp: seq<FormatInfo> := [];
      var j := 0;
      while j < |xs|
        invariant 0 <= j <= |xs|
        invariant temp == Group(kind, xs[..j], k)
      {
        var parts := Split(k, '-');
        var x := xs[j];
        assert xs[..j + 1][..j] == xs[..j];
        var member := if kind == Video then x.resolution == parts[0] && x.filesize == Shown(parts[1])
                      else x.ext == parts[0];
        if member {
          temp := temp + [x];
        }
        j := j + 1;
      }
      assert xs[..j] == xs;
      assert keys[..i + 1][..i] == keys[..i];
      if temp == [] {
        CollectNoneExtends(kind, xs, keys, i + 1);
        return None;
      }
      actual := actual + [temp[|temp| - 1]];
      i := i + 1;
    }
    assert keys[..i] == keys;
    return Some(actual);
  }

  /** The two offer loops: each video representative with the last audio one, then each audio one alone. */
  method AssembleOffers(videos: seq<FormatInfo>, audios: seq<FormatInfo>) returns (offers: seq<Offer>)
    ensures offers == VideoOffers(videos, audios) + AudioOffers(audios)
  {
    offers := [];
    var tail := LastOnly(audios);
    var i := 0;
    while i < |videos|
      invariant 0 <= i <= |videos|
      invariant offers == VideoOffers(videos[..i], audios)
    {
      var v := videos[i];
      var j := 0;
      while j < |tail|
        invariant 0 <= j <= |tail|
        invariant offers == VideoOffers(videos[..i], audios) + PairWith(v, tail[..j])
      {
        var a := tail[j];
        assert tail[..j + 1][..j] == tail[..j];
        offers := offers + [Offer(v, v.formatId + "+" + a.formatId, Some(a.formatId), Video)];
        j := j + 1;
      }
      assert tail[..j] == tail;
      assert videos[..i + 1][..i] == videos[..i];
      i := i + 1;
    }
    assert videos[..i] == videos;
    var k := 0;
    while k < |audios|
      invariant 0 <= k <= |audios|
      invariant offers == VideoOffers(videos, audios) + AudioOffers(audios[..k])
    {
      var a := audios[k];
      assert audios[..k + 1][..k] == audios[..k];
      offers := offers + [Offer(a, a.formatId, Some(a.formatId), Audio)];
      k := k + 1;
    }
    assert audios[..k] == audios;
  }

  /** The whole selector on a list of raw formats, `None` where the source raises. */
  method SelectFormats(raws: seq<RawFormat>, render: Renderer) returns (offers: Option<seq<Offer>>)
    ensures offers == SelectOffers(raws, render)
  {
    var videos, audios := Classify(raws, render);
    videos := KeepMp4(videos);
    var videoKeys := DictionaryKeys(Video, videos);
    if videoKeys.None? {
      return None;
    }
    VideoKeysFit(Video, videos);
    var actualVideos := LastOfEachGroup(Video, videos, videoKeys.value);
    if actualVideos.None? {
      return None;
    }
    var audioKeys := DictionaryKeys(Audio, audios);
    var actualAudios := LastOfEachGroup(Audio, audios, audioKeys.value);
    if actualAudios.None? {
      return None;
    }
    var list := AssembleOffers(actualVideos.value, actualAudios.value);
    return Some(list);
  }

  /** `extract_video_info` through its formats: `None` when the extractor raised. */
  method ExtractFormats(listing: Option<seq<RawFormat>>, render: Renderer) returns (offers: Option<seq<Offer>>)
    ensures offers == ExtractVideoInfo(listing, render)
    ensures listing.None? ==> offers.None?
  {
    if listing.None? {
      return None;
    }
    offers := SelectFormats(listing.value, render);
  }
}
