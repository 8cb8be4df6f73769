/**
 * Offer ids. The `format_id` of an offer is what the page posts back to
 * start a download, so no two offers of one video may share it. The
 * selector keeps this when the extractor's ids are present, unique and free
 * of '+', and the video grouping keys decode back into their parts; a '-'
 * inside a resolution or size text can fold one group into another, drop a
 * record and list the same offer twice.
 */
module OfferIds {
  import opened Wrappers
  import opened PyStr
  import opened Formats
  import opened FormatGrouping
  import opened FormatOffers
  import FileSize

  /** No two offers share a `format_id`. */
  predicate DistinctIds(os: seq<Offer>) {
    forall i, j :: 0 <= i < j < |os| ==> os[i].formatId != os[j].formatId
  }

  /** The first loop keeps the raw format in one of its two lists. */
  predicate Kept(r: RawFormat, render: Renderer) {
    Admits(Video, r, render) || Admits(Audio, r, render)
  }

  /** Every kept raw format has a `format_id` without '+', and no two kept formats share one. */
  predicate WellIdentified(raws: seq<RawFormat>, render: Renderer) {
    && (forall i :: 0 <= i < |raws| && Kept(raws[i], render) ==>
          raws[i].formatId.Some? && '+' !in raws[i].formatId.value)
    && (forall i, j :: 0 <= i < j < |raws| && Kept(raws[i], render) && Kept(raws[j], render) ==>
          raws[i].formatId != raws[j].formatId)
  }

  /** Within a list of records an id holds no '+' and names one record only. */
  predicate IdsIdentify(xs: seq<FormatInfo>) {
    && (forall f :: f in xs ==> '+' !in f.formatId)
    && (forall f, g :: f in xs && g in xs && f.formatId == g.formatId ==> f == g)
  }

  /** The candidate records inherit the extractor's ids. */
  lemma CandidateIds(kind: Kind, raws: seq<RawFormat>, render: Renderer)
    requires WellIdentified(raws, render)
    ensures IdsIdentify(Candidates(kind, raws, render))
  {
    var cs := Candidates(kind, raws, render);
    CandidatesAdmitted(kind, raws, render);
    forall f | f in cs ensures '+' !in f.formatId {
      var r :| r in raws && Admits(kind, r, render) && f == ToInfo(r, render);
      var i :| 0 <= i < |raws| && raws[i] == r;
      assert Kept(raws[i], render);
    }
    forall f, g | f in cs && g in cs && f.formatId == g.formatId ensures f == g {
      var r :| r in raws && Admits(kind, r, render) && f == ToInfo(r, render);
      var s :| s in raws && Admits(kind, s, render) && g == ToInfo(s, render);
      var i :| 0 <= i < |raws| && raws[i] == r;
      var j :| 0 <= j < |raws| && raws[j] == s;
      assert Kept(raws[i], render) && Kept(raws[j], render);
      assert r.formatId == s.formatId;
      assert i == j;
    }
  }

  /** Representatives of a clean list are distinct records, so their ids differ. */
  lemma RepresentativeIds(kind: Kind, xs: seq<FormatInfo>)
    requires Clean(kind, xs) && IdsIdentify(xs)
    ensures Representatives(kind, xs).Some?
    ensures var rs := Representatives(kind, xs).value;
      && (forall i :: 0 <= i < |rs| ==> '+' !in rs[i].formatId)
      && (forall i, j :: 0 <= i < j < |rs| ==> rs[i].formatId != rs[j].formatId)
  {
    CleanGroupingSucceeds(kind, xs);
    CleanOnePerGroup(kind, xs);
    RepresentativesFromInput(kind, xs);
    var rs := Representatives(kind, xs).value;
    forall i | 0 <= i < |rs| ensures '+' !in rs[i].formatId {
      assert rs[i] in xs;
    }
    forall i, j | 0 <= i < j < |rs| ensures rs[i].formatId != rs[j].formatId {
      assert rs[i] in xs && rs[j] in xs;
      assert !SameGroup(kind, rs[i], rs[j]);
    }
  }

  /** Equal texts with a common suffix have equal prefixes. */
  lemma SuffixCancel(a: string, b: string, t: string)
    requires a + t == b + t
    ensures a == b
  {
    assert |a| == |b|;
    assert a == (a + t)[..|a|];
    assert b == (b + t)[..|b|];
  }

  /**
   * In a layout, video offers differ in their video part, every video id
   * holds a '+' that no audio id holds, and audio offers carry their own ids.
   */
  lemma LayoutIds(videos: seq<FormatInfo>, audios: seq<FormatInfo>, offers: seq<Offer>)
    requires Layout(videos, audios, offers)
    requires forall i, j :: 0 <= i < j < |videos| ==> videos[i].formatId != videos[j].formatId
    requires forall i :: 0 <= i < |audios| ==> '+' !in audios[i].formatId
    requires forall i, j :: 0 <= i < j < |audios| ==> audios[i].formatId != audios[j].formatId
    ensures DistinctIds(offers)
  {
    var nv := if audios == [] then 0 else |videos|;
    forall i, j | 0 <= i < j < |offers| ensures offers[i].formatId != offers[j].formatId {
      if j < nv {
        var tail := "+" + audios[|audios| - 1].formatId;
        assert offers[i].formatId == videos[i].formatId + tail;
        assert offers[j].formatId == videos[j].formatId + tail;
        if offers[i].formatId == offers[j].formatId {
          SuffixCancel(videos[i].formatId, videos[j].formatId, tail);
        }
      } else if i < nv {
        var v := videos[i].formatId;
        var id := offers[i].formatId;
        assert id == v + "+" + audios[|audios| - 1].formatId;
        assert id[|v|] == '+';
        var k := j - nv;
        assert offers[nv + k] == Offer(audios[k], audios[k].formatId, Some(audios[k].formatId), Audio);
      } else {
        var k, k' := i - nv, j - nv;
        assert offers[nv + k] == Offer(audios[k], audios[k].formatId, Some(audios[k].formatId), Audio);
        assert offers[nv + k'] == Offer(audios[k'], audios[k'].formatId, Some(audios[k'].formatId), Audio);
      }
    }
  }

  /**
   * With well-identified extractor formats and a video pool whose key fields
   * hold no '-', the selection succeeds and no `format_id` is offered twice.
   */
  lemma OfferIdsDistinct(raws: seq<RawFormat>, render: Renderer)
    requires WellIdentified(raws, render)
    requires Clean(Video, VideoPool(raws, render))
    ensures SelectOffers(raws, render).Some?
    ensures DistinctIds(SelectOffers(raws, render).value)
  {
    SelectionSucceeds(raws, render);
    AudioGroupingSucceeds(raws, render);
    var cands := Candidates(Video, raws, render);
    CandidateIds(Video, raws, render);
    CandidateIds(Audio, raws, render);
    Mp4OnlyKeeps(cands);
    assert IdsIdentify(VideoPool(raws, render));
    RepresentativeIds(Video, VideoPool(raws, render));
    RepresentativeIds(Audio, AudioPool(raws, render));
    OfferLayout(raws, render);
    LayoutIds(Representatives(Video, VideoPool(raws, render)).value,
              Representatives(Audio, AudioPool(raws, render)).value,
              SelectOffers(raws, render).value);
  }

  /** A renderer that writes every size as "x", so a one-byte size reads "x B". */
  function PlainRender(n: int, u: FileSize.SizeUnit): string {
    "x"
  }

  /** Three well-identified formats: two `.mp4` video-only ones, the first with a '-' in its resolution, and one audio. */
  const DashedRaws: seq<RawFormat> := [
    RawFormat(Some("1"), Some("a-x B"), Some("mp4"), Some(1), Some("avc1"), Some("none")),
    RawFormat(Some("2"), Some("a"), Some("mp4"), Some(1), Some("avc1"), Some("none")),
    RawFormat(Some("3"), Some("audio only"), Some("m4a"), Some(1), Some("none"), Some("mp4a"))]

  const DashedVideo1 := FormatInfo("1", "a-x B", "mp4", Shown("x B"), "avc1", "none")
  const DashedVideo2 := FormatInfo("2", "a", "mp4", Shown("x B"), "avc1", "none")
  const DashedAudio := FormatInfo("3", "audio only", "m4a", Shown("x B"), "none", "mp4a")

  lemma DashedInfos()
    ensures ToInfo(DashedRaws[0], PlainRender) == DashedVideo1
    ensures ToInfo(DashedRaws[1], PlainRender) == DashedVideo2
    ensures ToInfo(DashedRaws[2], PlainRender) == DashedAudio
  {
    assert SizeTextOf(Some(1), PlainRender) == Shown("x B");
  }

  lemma DashedVideoCandidates()
    ensures Candidates(Video, DashedRaws, PlainRender) == [DashedVideo1, DashedVideo2]
  {
    var render: Renderer := PlainRender;
    var raws := DashedRaws;
    var r1, r2, r3 := raws[0], raws[1], raws[2];
    DashedInfos();
    assert raws[..2] == [r1, r2] && raws[..2][..1] == [r1] && [r1][..0] == [];
    assert Admits(Video, r1, render) && Admits(Video, r2, render) && !Admits(Video, r3, render);
    assert Candidates(Video, [r1], render) == [DashedVideo1];
    assert Candidates(Video, [r1, r2], render) == [DashedVideo1, DashedVideo2];
  }

  lemma DashedAudioCandidates()
    ensures Candidates(Audio, DashedRaws, PlainRender) == [DashedAudio]
  {
    var render: Renderer := PlainRender;
    var raws := DashedRaws;
    var r1, r2, r3 := raws[0], raws[1], raws[2];
    DashedInfos();
    assert raws[..2] == [r1, r2] && raws[..2][..1] == [r1] && [r1][..0] == [];
    assert !Admits(Audio, r1, render) && !Admits(Audio, r2, render) && Admits(Audio, r3, render);
    assert Candidates(Audio, [r1], render) == [];
    assert Candidates(Audio, [r1, r2], render) == [];
  }

  lemma DashedPools()
    ensures WellIdentified(DashedRaws, PlainRender)
    ensures VideoPool(DashedRaws, PlainRender) == [DashedVideo1, DashedVideo2]
    ensures AudioPool(DashedRaws, PlainRender) == [DashedAudio]
  {
    DashedVideoCandidates();
    DashedAudioCandidates();
    var vs := [DashedVideo1, DashedVideo2];
    assert vs[..1] == [DashedVideo1] && [DashedVideo1][..0] == [];
    assert Mp4Only([DashedVideo1]) == [DashedVideo1];
  }

  /**
   * A record whose resolution is another record's `resolution-size` text,
   * with the same size text, is swallowed: its key "r-t-t" splits into
   * ("r", "t", "t") and selects the other record, whose own key "r-t" does
   * too. The grouping keeps the other record twice and drops this one.
   */
  lemma DashedPairFolds(f1: FormatInfo, f2: FormatInfo)
    requires f2.filesize.Shown? && '-' !in f2.resolution && '-' !in f2.filesize.text
    requires f1.filesize == f2.filesize && f1.resolution == f2.resolution + "-" + f2.filesize.text
    ensures Representatives(Video, [f1, f2]) == Some([f2, f2])
  {
    var vs := [f1, f2];
    var k1, k2 := KeyOf(Video, f1), KeyOf(Video, f2);
    DashedKeys(f1, f2);
    DashedGroups(f1, f2);
    var ks: seq<string> := [k1, k2];
    var none: seq<string> := [];
    var one: seq<string> := [k1];
    assert KeysFit(Video, ks) && KeysFit(Video, one);
    assert one[..0] == none;
    assert Collect(Video, vs, none) == Some([]);
    var g1 := Group(Video, vs, one[0]);
    assert g1 == [f2];
    var noInfo: seq<FormatInfo> := [];
    assert Collect(Video, vs, one) == Some(noInfo + [g1[|g1| - 1]]);
    assert g1[|g1| - 1] == f2 && noInfo + [f2] == [f2];
    assert Collect(Video, vs, one) == Some([f2]);
    assert ks[..|ks| - 1] == one && ks[|ks| - 1] == k2;
    var g2 := Group(Video, vs, k2);
    assert g2 == [f2];
    assert Collect(Video, vs, ks[..|ks| - 1]) == Some([f2]);
    assert g2 != [] && g2[|g2| - 1] == f2;
    assert Collect(Video, vs, ks) == Some([f2] + [f2]);
    assert [f2] + [f2] == [f2, f2];
    assert DictKeys(Video, vs) == ks;
    assert Representatives(Video, vs) == Collect(Video, vs, ks);
  }

  /** The keys "r-t-t" and "r-t" split into (r, t, t) and (r, t). */
  lemma DashedSplits(r: string, t: string)
    requires '-' !in r && '-' !in t
    ensures Split(r + "-" + t + "-" + t, '-') == [r, t, t]
    ensures Split(r + "-" + t, '-') == [r, t]
  {
    SplitPair(r, t, '-');
    SplitPair(t, t, '-');
    assert r + "-" + t + "-" + t == r + ['-'] + (t + ['-'] + t);
    SplitAfterFirst(r, t + ['-'] + t, '-');
  }

  /** Both keys of such a pair select the second record alone. */
  lemma DashedGroups(f1: FormatInfo, f2: FormatInfo)
    requires f2.filesize.Shown? && '-' !in f2.resolution && '-' !in f2.filesize.text
    requires f1.filesize == f2.filesize && f1.resolution == f2.resolution + "-" + f2.filesize.text
    ensures '-' in KeyOf(Video, f1) && '-' in KeyOf(Video, f2)
    ensures Group(Video, [f1, f2], KeyOf(Video, f1)) == [f2]
    ensures Group(Video, [f1, f2], KeyOf(Video, f2)) == [f2]
  {
    var r, t := f2.resolution, f2.filesize.text;
    var vs := [f1, f2];
    var k1, k2 := KeyOf(Video, f1), KeyOf(Video, f2);
    DashedSplits(r, t);
    assert k1 == r + "-" + t + "-" + t;
    assert k1[|r|] == '-' && k2[|r|] == '-';
    assert |f1.resolution| > |r|;
    assert !InGroup(Video, k1, f1) && InGroup(Video, k1, f2);
    assert !InGroup(Video, k2, f1) && InGroup(Video, k2, f2);
    var first := [f1];
    var empty: seq<FormatInfo> := [];
    assert vs[..|vs| - 1] == first && first[..|first| - 1] == empty;
    assert Group(Video, empty, k1) == [] && Group(Video, empty, k2) == [];
    assert Group(Video, first, k1) == [];
    assert Group(Video, first, k2) == [];
    assert Group(Video, vs, k1) == Group(Video, first, k1) + [f2];
    assert Group(Video, vs, k2) == Group(Video, first, k2) + [f2];
  }

  /** The two keys of such a pair are distinct and both assigned. */
  lemma DashedKeys(f1: FormatInfo, f2: FormatInfo)
    requires f2.filesize.Shown? && f1.filesize == f2.filesize
    requires f1.resolution == f2.resolution + "-" + f2.filesize.text
    ensures Keyable(Video, [f1, f2])
    ensures DictKeys(Video, [f1, f2]) == [KeyOf(Video, f1), KeyOf(Video, f2)]
  {
    var vs := [f1, f2];
    var k1, k2 := KeyOf(Video, f1), KeyOf(Video, f2);
    assert vs[..1] == [f1] && [f1][..0] == [];
    assert KeysOf(Video, [f1]) == [k1];
    assert KeysOf(Video, vs) == [k1, k2];
    var ks: seq<string> := [k1, k2];
    assert ks[..1] == [k1] && ks[..1][..0] == [];
    assert Distinct([k1]) == [k1];
    assert |k2| < |k1|;
  }

  /** The two example videos fold: the first one's resolution is the second one's key. */
  lemma DashedVideoGrouping()
    ensures Representatives(Video, [DashedVideo1, DashedVideo2]) == Some([DashedVideo2, DashedVideo2])
  {
    assert DashedVideo1.resolution == DashedVideo2.resolution + "-" + DashedVideo2.filesize.text;
    DashedPairFolds(DashedVideo1, DashedVideo2);
  }

  lemma DashedAudioGrouping()
    ensures Representatives(Audio, [DashedAudio]) == Some([DashedAudio])
  {
    var aus := [DashedAudio];
    assert aus[..0] == [];
    assert KeysOf(Audio, aus) == ["m4a"];
    var aks: seq<string> := ["m4a"];
    assert aks[..0] == [];
    assert Distinct(aks) == ["m4a"];
    SplitWithoutSeparator("m4a", '-');
    assert Group(Audio, aus, "m4a") == [DashedAudio];
  }

  /**
   * On the three well-identified formats above the selector repeats an offer:
   * the first video's key "a-x B-x B" splits into ("a", "x B", "x B"), the
   * pair of the second video, whose own key is "a-x B". Both keys select the
   * second video, the first is dropped, and the two video offers share the
   * id "2+3".
   */
  lemma DashedKeysRepeatOffer()
    ensures WellIdentified(DashedRaws, PlainRender)
    ensures SelectOffers(DashedRaws, PlainRender).Some?
    ensures var os := SelectOffers(DashedRaws, PlainRender).value;
      |os| == 3 && os[0].formatId == "2+3" && os[1].formatId == "2+3" && !DistinctIds(os)
  {
    var v2, au := DashedVideo2, DashedAudio;
    DashedPools();
    DashedVideoGrouping();
    DashedAudioGrouping();
    var os := VideoOffers([v2, v2], [au]) + AudioOffers([au]);
    assert SelectOffers(DashedRaws, PlainRender) == Some(os);
    DashedOffers();
  }

  /** The offers built on the folded grouping repeat the id "2+3". */
  lemma DashedOffers()
    ensures var os := VideoOffers([DashedVideo2, DashedVideo2], [DashedAudio]) + AudioOffers([DashedAudio]);
      |os| == 3 && os[0].formatId == "2+3" && os[1].formatId == "2+3" && !DistinctIds(os)
  {
    var v2, au := DashedVideo2, DashedAudio;
    VideoOffersShape([v2, v2], [au]);
    AudioOffersShape([au]);
    var os := VideoOffers([v2, v2], [au]) + AudioOffers([au]);
    assert os[0] == Combined(v2, au) && os[1] == Combined(v2, au);
    assert Combined(v2, au).formatId == "2+3";
  }
}
