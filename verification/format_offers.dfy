/**
 * Properties of the offer list `SelectOffers` builds: what each offer stems
 * from, how video offers are paired with the last audio representative, the
 * layout and length of the list, and when the selection succeeds.
 */
module FormatOffers {
  import opened Wrappers
  import opened PyStr
  import opened Formats
  import opened FormatGrouping

  /** Every candidate is the record of a raw format the first loop admits. */
  lemma {:induction false} CandidatesAdmitted(kind: Kind, raws: seq<RawFormat>, render: Renderer)
    ensures forall f :: f in Candidates(kind, raws, render) ==>
              exists r :: r in raws && Admits(kind, r, render) && f == ToInfo(r, render)
    decreases |raws|
  {
    if raws != [] {
      var p := raws[..|raws| - 1];
      CandidatesAdmitted(kind, p, render);
      assert forall r :: r in p ==> r in raws;
    }
  }

  lemma {:induction false} Mp4OnlyKeeps(vs: seq<FormatInfo>)
    ensures forall f :: f in Mp4Only(vs) ==> f in vs && f.ext == "mp4"
    decreases |vs|
  {
    if vs != [] {
      Mp4OnlyKeeps(vs[..|vs| - 1]);
      assert forall f :: f in vs[..|vs| - 1] ==> f in vs;
    }
  }

  /** Whatever the grouping step returns is drawn from its input. */
  lemma RepresentativesFromInput(kind: Kind, xs: seq<FormatInfo>)
    requires Representatives(kind, xs).Some?
    ensures forall f :: f in Representatives(kind, xs).value ==> f in xs
  {
    VideoKeysFit(kind, xs);
    var keys := DictKeys(kind, xs);
    CollectShape(kind, xs, keys);
    var rs := Representatives(kind, xs).value;
    forall i | 0 <= i < |rs| ensures rs[i] in xs {
      GroupLast(kind, xs, keys[i]);
    }
  }

  lemma {:induction false} PairWithShape(v: FormatInfo, audios: seq<FormatInfo>)
    ensures |PairWith(v, audios)| == |audios|
    ensures forall i :: 0 <= i < |audios| ==> PairWith(v, audios)[i] == Combined(v, audios[i])
    decreases |audios|
  {
    if audios != [] {
      PairWithShape(v, audios[..|audios| - 1]);
    }
  }

  /** Each video representative yields one offer paired with the last audio representative, or none if there is no audio. */
  lemma {:induction false} VideoOffersShape(videos: seq<FormatInfo>, audios: seq<FormatInfo>)
    ensures audios == [] ==> VideoOffers(videos, audios) == []
    ensures audios != [] ==>
              |VideoOffers(videos, audios)| == |videos| &&
              forall i :: 0 <= i < |videos| ==>
                VideoOffers(videos, audios)[i] == Combined(videos[i], audios[|audios| - 1])
    decreases |videos|
  {
    if videos != [] {
      VideoOffersShape(videos[..|videos| - 1], audios);
      PairWithShape(videos[|videos| - 1], LastOnly(audios));
      if audios != [] {
        assert LastOnly(audios) == [audios[|audios| - 1]];
      }
    }
  }

  lemma {:induction false} AudioOffersShape(audios: seq<FormatInfo>)
    ensures |AudioOffers(audios)| == |audios|
    ensures forall i :: 0 <= i < |audios| ==> AudioOffers(audios)[i] == Solo(audios[i])
    decreases |audios|
  {
    if audios != [] {
      AudioOffersShape(audios[..|audios| - 1]);
    }
  }

  /** The video representatives, audio representatives and offers of a successful selection. */
  predicate Layout(videos: seq<FormatInfo>, audios: seq<FormatInfo>, offers: seq<Offer>) {
    var nv := if audios == [] then 0 else |videos|;
    && |offers| == nv + |audios|
    && (forall i :: 0 <= i < nv ==>
          offers[i] == Offer(videos[i], videos[i].formatId + "+" + audios[|audios| - 1].formatId,
                             Some(audios[|audios| - 1].formatId), Video))
    && (forall i :: 0 <= i < |audios| ==>
          offers[nv + i] == Offer(audios[i], audios[i].formatId, Some(audios[i].formatId), Audio))
  }

  /**
   * The offer list is all video offers followed by one offer per audio
   * representative, so its length is |V|·min(1,|A|) + |A|. Every video offer
   * carries the id of the LAST audio representative, both inside its composite
   * id `videoId+audioId` and as its audio id; with no audio there is no video
   * offer. An audio offer's id and audio id are its own id.
   */
  lemma OfferLayout(raws: seq<RawFormat>, render: Renderer)
    requires SelectOffers(raws, render).Some?
    ensures Representatives(Video, VideoPool(raws, render)).Some?
    ensures Representatives(Audio, AudioPool(raws, render)).Some?
    ensures Layout(Representatives(Video, VideoPool(raws, render)).value,
                   Representatives(Audio, AudioPool(raws, render)).value,
                   SelectOffers(raws, render).value)
  {
    var videos := Representatives(Video, VideoPool(raws, render)).value;
    var audios := Representatives(Audio, AudioPool(raws, render)).value;
    VideoOffersShape(videos, audios);
    AudioOffersShape(audios);
  }

  /** The k-th offer of a layout: a video offer from the k-th video representative, or an audio offer. */
  lemma LayoutAt(videos: seq<FormatInfo>, audios: seq<FormatInfo>, offers: seq<Offer>, k: nat)
    requires Layout(videos, audios, offers) && k < |offers|
    ensures offers[k].kind == Video ==>
              audios != [] && k < |videos| && offers[k].info == videos[k] &&
              offers[k].audioFormatId == Some(audios[|audios| - 1].formatId)
    ensures offers[k].kind == Audio ==>
              var nv := if audios == [] then 0 else |videos|;
              nv <= k && offers[k].info == audios[k - nv]
  {
    var nv := if audios == [] then 0 else |videos|;
    if k >= nv {
      var i := k - nv;
      assert offers[nv + i] == Offer(audios[i], audios[i].formatId, Some(audios[i].formatId), Audio);
    }
  }

  /** All video offers name one and the same audio format. */
  lemma VideoOffersShareAudio(raws: seq<RawFormat>, render: Renderer)
    requires SelectOffers(raws, render).Some?
    ensures var os := SelectOffers(raws, render).value;
      forall i, j :: 0 <= i < |os| && 0 <= j < |os| && os[i].kind == Video && os[j].kind == Video ==>
        os[i].audioFormatId == os[j].audioFormatId
  {
    OfferLayout(raws, render);
    var videos := Representatives(Video, VideoPool(raws, render)).value;
    var audios := Representatives(Audio, AudioPool(raws, render)).value;
    var os := SelectOffers(raws, render).value;
    forall i | 0 <= i < |os| && os[i].kind == Video
      ensures os[i].audioFormatId == Some(audios[|audios| - 1].formatId)
    {
      LayoutAt(videos, audios, os, i);
    }
  }

  /**
   * An offer stems from a raw format with a listed extension and a known,
   * non-zero size; a video offer from an `.mp4` format with a video codec
   * and no audio codec and with a size text; an audio offer from a format
   * with an audio codec and no video codec.
   */
  ghost predicate StemsFromAdmitted(o: Offer, raws: seq<RawFormat>, render: Renderer) {
    exists r :: r in raws && o.info == ToInfo(r, render) &&
      ListedExt(r.ext) && r.filesize.Some? && r.filesize.value != 0 &&
      o.info.filesize != Unknown &&
      (o.kind == Video ==> r.ext == Some("mp4") && VideoOnly(o.info) && o.info.filesize.Shown?) &&
      (o.kind == Audio ==> AudioOnly(o.info))
  }

  /** A video representative is the record of an admitted `.mp4` raw format with a size text. */
  lemma VideoRepresentativeAdmitted(raws: seq<RawFormat>, render: Renderer, f: FormatInfo)
    requires Representatives(Video, VideoPool(raws, render)).Some?
    requires f in Representatives(Video, VideoPool(raws, render)).value
    ensures f.filesize.Shown?
    ensures exists r :: r in raws && Admits(Video, r, render) && f == ToInfo(r, render) && r.ext == Some("mp4")
  {
    var pool := VideoPool(raws, render);
    RepresentativesFromInput(Video, pool);
    Mp4OnlyKeeps(Candidates(Video, raws, render));
    CandidatesAdmitted(Video, raws, render);
    assert Keyable(Video, pool);
    var r :| r in raws && Admits(Video, r, render) && f == ToInfo(r, render);
  }

  lemma AudioRepresentativeAdmitted(raws: seq<RawFormat>, render: Renderer, f: FormatInfo)
    requires Representatives(Audio, AudioPool(raws, render)).Some?
    requires f in Representatives(Audio, AudioPool(raws, render)).value
    ensures exists r :: r in raws && Admits(Audio, r, render) && f == ToInfo(r, render)
  {
    RepresentativesFromInput(Audio, AudioPool(raws, render));
    CandidatesAdmitted(Audio, raws, render);
  }

  lemma AdmittedStems(kind: Kind, r: RawFormat, raws: seq<RawFormat>, render: Renderer, o: Offer)
    requires r in raws && Admits(kind, r, render) && o.info == ToInfo(r, render) && o.kind == kind
    requires kind == Video ==> r.ext == Some("mp4") && o.info.filesize.Shown?
    ensures StemsFromAdmitted(o, raws, render)
  {
    assert r.filesize.Some? && r.filesize.value != 0;
  }

  /** Every offer of a successful selection stems from an admitted raw format. */
  lemma OffersStemFromAdmittedFormats(raws: seq<RawFormat>, render: Renderer)
    requires SelectOffers(raws, render).Some?
    ensures forall o :: o in SelectOffers(raws, render).value ==> StemsFromAdmitted(o, raws, render)
  {
    var videos := Representatives(Video, VideoPool(raws, render)).value;
    var audios := Representatives(Audio, AudioPool(raws, render)).value;
    OfferLayout(raws, render);
    var os := SelectOffers(raws, render).value;
    forall k | 0 <= k < |os| ensures StemsFromAdmitted(os[k], raws, render) {
      var o := os[k];
      LayoutAt(videos, audios, os, k);
      if o.kind == Video {
        VideoRepresentativeAdmitted(raws, render, o.info);
        var r :| r in raws && Admits(Video, r, render) && o.info == ToInfo(r, render) && r.ext == Some("mp4");
        AdmittedStems(Video, r, raws, render, o);
      } else {
        AudioRepresentativeAdmitted(raws, render, o.info);
        var r :| r in raws && Admits(Audio, r, render) && o.info == ToInfo(r, render);
        AdmittedStems(Audio, r, raws, render, o);
      }
    }
  }

  /** Audio grouping never raises: listed extensions hold no '-'. */
  lemma AudioGroupingSucceeds(raws: seq<RawFormat>, render: Renderer)
    ensures Clean(Audio, AudioPool(raws, render))
    ensures Representatives(Audio, AudioPool(raws, render)).Some?
  {
    var pool := AudioPool(raws, render);
    CandidatesAdmitted(Audio, raws, render);
    forall i | 0 <= i < |pool| ensures CleanRecord(Audio, pool[i]) {
      assert pool[i] in pool;
      assert '-' !in "mp4" && '-' !in "webm" && '-' !in "m4a";
    }
    CleanGroupingSucceeds(Audio, pool);
  }

  /**
   * The selection succeeds exactly when the video grouping does; in
   * particular it succeeds whenever no `.mp4` video record has a '-' in its
   * resolution or size text and every such record has a size text.
   */
  lemma SelectionSucceeds(raws: seq<RawFormat>, render: Renderer)
    ensures SelectOffers(raws, render).Some? <==> Representatives(Video, VideoPool(raws, render)).Some?
    ensures Clean(Video, VideoPool(raws, render)) ==> SelectOffers(raws, render).Some?
  {
    AudioGroupingSucceeds(raws, render);
    if Clean(Video, VideoPool(raws, render)) {
      CleanGroupingSucceeds(Video, VideoPool(raws, render));
    }
  }

  /** An `.mp4` video-only format of 1024^4 bytes or more has no size text, and the selection raises. */
  lemma HugeVideoSizeFails(raws: seq<RawFormat>, render: Renderer, j: nat)
    requires j < |raws|
    requires raws[j].ext == Some("mp4") && raws[j].filesize.Some? && raws[j].filesize.value >= 1024 * 1024 * 1024 * 1024
    requires VideoOnly(ToInfo(raws[j], render))
    ensures SelectOffers(raws, render) == None
  {
    var f := ToInfo(raws[j], render);
    assert f.filesize == Absent;
    CandidatesContain(Video, raws, render, j);
    Mp4OnlyContains(Candidates(Video, raws, render), f);
    assert !Keyable(Video, VideoPool(raws, render));
  }

  lemma {:induction false} CandidatesContain(kind: Kind, raws: seq<RawFormat>, render: Renderer, j: nat)
    requires j < |raws| && Admits(kind, raws[j], render)
    ensures ToInfo(raws[j], render) in Candidates(kind, raws, render)
    decreases |raws|
  {
    if j < |raws| - 1 {
      CandidatesContain(kind, raws[..|raws| - 1], render, j);
    }
  }

  lemma {:induction false} Mp4OnlyContains(vs: seq<FormatInfo>, f: FormatInfo)
    requires f in vs && f.ext == "mp4"
    ensures f in Mp4Only(vs)
    decreases |vs|
  {
    if vs[|vs| - 1] != f {
      assert f in vs[..|vs| - 1] by {
        var k :| 0 <= k < |vs| && vs[k] == f;
        assert vs[..|vs| - 1][k] == f;
      }
      Mp4OnlyContains(vs[..|vs| - 1], f);
    }
  }

  /** The record passes the split-key test of key `k`. */
  predicate ClaimedBy(k: string, g: FormatInfo) {
    '-' in k && InGroup(Video, k, g)
  }

  /**
   * A '-' inside a resolution breaks the key decoding: the first piece of
   * the record's key is shorter than its resolution, so the record misses
   * its own group. When no other record of the pool passes the test for that
   * key either, the group is empty and `temp_videos[-1]` raises.
   */
  lemma DashedResolutionFails(xs: seq<FormatInfo>, f: FormatInfo)
    requires f in xs && f.filesize.Shown? && '-' in f.resolution
    requires forall g :: g in xs && g != f ==> !ClaimedBy(KeyOf(Video, f), g)
    ensures Representatives(Video, xs) == None
  {
    if Keyable(Video, xs) {
      var k := KeyOf(Video, f);
      assert k[|f.resolution|] == '-';
      SplitHead(k, '-');
      var head := Split(k, '-')[0];
      assert k[..|f.resolution|] == f.resolution;
      if head == f.resolution {
        assert false;
      }
      assert !InGroup(Video, k, f);
      forall j | 0 <= j < |xs| ensures !InGroup(Video, k, xs[j]) {
        assert xs[j] in xs;
      }
      GroupLast(Video, xs, k);
      var m :| 0 <= m < |xs| && xs[m] == f;
      var keys := DictKeys(Video, xs);
      assert KeysOf(Video, xs)[m] == k;
      assert k in keys;
      var i :| 0 <= i < |keys| && keys[i] == k;
      VideoKeysFit(Video, xs);
      CollectSucceeds(Video, xs, keys);
    }
  }
}
