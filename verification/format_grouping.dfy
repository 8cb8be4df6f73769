/**
 * What the grouping step of the selector computes. The source groups by a
 * string key and recovers the group's fields with `split('-')`; when no
 * resolution or size text contains a '-', this is grouping by the pair
 * (resolution, size text) for video and by extension for audio, and the
 * result keeps exactly one record per group: the last one in the input,
 * with groups in the order of their first appearance.
 */
module FormatGrouping {
  import opened Wrappers
  import opened PyStr
  import opened Formats

  predicate NoDup(ks: seq<string>) {
    forall i, j :: 0 <= i < j < |ks| ==> ks[i] != ks[j]
  }

  /** Position of the first occurrence of `k`. */
  function FirstIndex(ks: seq<string>, k: string): (j: nat)
    requires k in ks
    ensures j < |ks| && ks[j] == k && k !in ks[..j]
    decreases |ks|
  {
    if ks[0] == k then 0
    else
      var j := FirstIndex(ks[1..], k);
      assert ks[..j + 1] == [ks[0]] + ks[1..][..j];
      j + 1
  }

  lemma FirstIndexUnique(ks: seq<string>, k: string, j: nat)
    requires j < |ks| && ks[j] == k && k !in ks[..j]
    ensures FirstIndex(ks, k) == j
  {
    var f := FirstIndex(ks, k);
    assert forall i :: 0 <= i < j ==> ks[i] != k by {
      assert forall i :: 0 <= i < j ==> ks[i] == ks[..j][i];
    }
    assert forall i :: 0 <= i < f ==> ks[i] != k by {
      assert forall i :: 0 <= i < f ==> ks[i] == ks[..f][i];
    }
  }

  /** Dictionary keys: no key twice, and keys in the order of their first assignment. */
  lemma {:induction false} DistinctOrder(ks: seq<string>)
    ensures NoDup(Distinct(ks))
    ensures forall i, i' :: 0 <= i < i' < |Distinct(ks)| ==>
              FirstIndex(ks, Distinct(ks)[i]) < FirstIndex(ks, Distinct(ks)[i'])
    decreases |ks|
  {
    if ks != [] {
      var p := ks[..|ks| - 1];
      var k := ks[|ks| - 1];
      DistinctOrder(p);
      var dp := Distinct(p);
      assert ks == p + [k];
      forall x | x in p ensures FirstIndex(ks, x) == FirstIndex(p, x) {
        var f := FirstIndex(p, x);
        assert ks[..f] == p[..f];
        FirstIndexUnique(ks, x, f);
      }
      if k !in dp {
        assert k !in p;
        assert ks[..|p|] == p;
        FirstIndexUnique(ks, k, |p|);
      }
    }
  }

  /** A non-empty group's last member is the input's last record passing the membership test. */
  lemma {:induction false} GroupLast(kind: Kind, xs: seq<FormatInfo>, k: string)
    requires kind == Video ==> '-' in k
    ensures Group(kind, xs, k) != [] <==> exists j :: 0 <= j < |xs| && InGroup(kind, k, xs[j])
    ensures Group(kind, xs, k) != [] ==>
              exists j :: 0 <= j < |xs| && xs[j] == Group(kind, xs, k)[|Group(kind, xs, k)| - 1] &&
                InGroup(kind, k, xs[j]) && forall j' :: j < j' < |xs| ==> !InGroup(kind, k, xs[j'])
    decreases |xs|
  {
    if xs != [] {
      var p := xs[..|xs| - 1];
      GroupLast(kind, p, k);
      assert forall j :: 0 <= j < |p| ==> p[j] == xs[j];
    }
  }

  /** The grouping loop succeeds exactly when every key has a non-empty group, and then takes each group's last member. */
  lemma CollectShape(kind: Kind, xs: seq<FormatInfo>, keys: seq<string>)
    requires KeysFit(kind, keys)
    ensures Collect(kind, xs, keys).Some? <==> forall i :: 0 <= i < |keys| ==> Group(kind, xs, keys[i]) != []
    ensures Collect(kind, xs, keys).Some? ==>
              var rs := Collect(kind, xs, keys).value;
              |rs| == |keys| &&
              forall i :: 0 <= i < |keys| ==>
                rs[i] == Group(kind, xs, keys[i])[|Group(kind, xs, keys[i])| - 1]
  {
    CollectSucceeds(kind, xs, keys);
    if Collect(kind, xs, keys).Some? {
      CollectValues(kind, xs, keys);
    }
  }

  /** `Collect` succeeds exactly when no group is empty. */
  lemma {:induction false} CollectSucceeds(kind: Kind, xs: seq<FormatInfo>, keys: seq<string>)
    requires KeysFit(kind, keys)
    ensures Collect(kind, xs, keys).Some? <==> forall i :: 0 <= i < |keys| ==> Group(kind, xs, keys[i]) != []
    decreases |keys|
  {
    if keys != [] {
      var p := keys[..|keys| - 1];
      var k := keys[|keys| - 1];
      CollectSucceeds(kind, xs, p);
      assert forall i :: 0 <= i < |p| ==> p[i] == keys[i];
      assert (forall i :: 0 <= i < |keys| ==> Group(kind, xs, keys[i]) != []) <==>
             (forall i :: 0 <= i < |p| ==> Group(kind, xs, p[i]) != []) && Group(kind, xs, k) != [];
    }
  }

  /** A successful `Collect` holds, key by key, the last member of the key's group. */
  lemma {:induction false} CollectValues(kind: Kind, xs: seq<FormatInfo>, keys: seq<string>)
    requires KeysFit(kind, keys)
    requires Collect(kind, xs, keys).Some?
    requires forall i :: 0 <= i < |keys| ==> Group(kind, xs, keys[i]) != []
    ensures var rs := Collect(kind, xs, keys).value;
              |rs| == |keys| &&
              forall i :: 0 <= i < |keys| ==>
                rs[i] == Group(kind, xs, keys[i])[|Group(kind, xs, keys[i])| - 1]
    decreases |keys|
  {
    if keys != [] {
      var p := keys[..|keys| - 1];
      CollectValues(kind, xs, p);
      assert forall i :: 0 <= i < |p| ==> p[i] == keys[i];
    }
  }

  /** The record has no '-' in the fields its key is made of (and, for video, a shown size). */
  predicate CleanRecord(kind: Kind, f: FormatInfo) {
    if kind == Video then f.filesize.Shown? && '-' !in f.resolution && '-' !in f.filesize.text
    else '-' !in f.ext
  }

  predicate Clean(kind: Kind, xs: seq<FormatInfo>) {
    forall i :: 0 <= i < |xs| ==> CleanRecord(kind, xs[i])
  }

  /** The intended grouping: same resolution and size text for video, same extension for audio. */
  predicate SameGroup(kind: Kind, f: FormatInfo, g: FormatInfo) {
    if kind == Video then f.resolution == g.resolution && f.filesize == g.filesize
    else f.ext == g.ext
  }

  /** Position of the first record of `f`'s group in `xs`, or |xs| when there is none. */
  function FirstOfGroup(kind: Kind, xs: seq<FormatInfo>, f: FormatInfo): (j: nat)
    ensures j <= |xs|
    ensures forall j' :: 0 <= j' < j ==> !SameGroup(kind, xs[j'], f)
    ensures j < |xs| ==> SameGroup(kind, xs[j], f)
    decreases |xs|
  {
    if xs == [] then 0
    else if SameGroup(kind, xs[0], f) then 0
    else 1 + FirstOfGroup(kind, xs[1..], f)
  }

  /** On clean records the string key and its `split('-')` decoding agree with `SameGroup`. */
  lemma CleanKeys(kind: Kind, f: FormatInfo, g: FormatInfo)
    requires CleanRecord(kind, f) && CleanRecord(kind, g)
    ensures kind == Video ==> '-' in KeyOf(kind, g)
    ensures InGroup(kind, KeyOf(kind, g), f) <==> SameGroup(kind, f, g)
    ensures KeyOf(kind, f) == KeyOf(kind, g) <==> SameGroup(kind, f, g)
  {
    if kind == Video {
      var tf, tg := f.filesize.text, g.filesize.text;
      assert KeyOf(kind, g) == g.resolution + ['-'] + tg;
      assert KeyOf(kind, f) == f.resolution + ['-'] + tf;
      SplitPair(g.resolution, tg, '-');
      SplitPair(f.resolution, tf, '-');
      assert KeyOf(kind, g)[|g.resolution|] == '-';
    } else {
      SplitWithoutSeparator(g.ext, '-');
      SplitWithoutSeparator(f.ext, '-');
    }
  }

  /** On a clean list the first record of a group sits where its key first occurs. */
  lemma FirstOfGroupIsFirstKey(kind: Kind, xs: seq<FormatInfo>, g: FormatInfo)
    requires Clean(kind, xs) && g in xs
    ensures KeyOf(kind, g) in KeysOf(kind, xs)
    ensures FirstOfGroup(kind, xs, g) == FirstIndex(KeysOf(kind, xs), KeyOf(kind, g))
  {
    var ks := KeysOf(kind, xs);
    var j := FirstOfGroup(kind, xs, g);
    var m :| 0 <= m < |xs| && xs[m] == g;
    CleanKeys(kind, g, g);
    assert j <= m;
    forall j' | 0 <= j' <= j ensures (ks[j'] == KeyOf(kind, g) <==> SameGroup(kind, xs[j'], g)) {
      CleanKeys(kind, xs[j'], g);
    }
    assert KeyOf(kind, g) !in ks[..j];
    FirstIndexUnique(ks, KeyOf(kind, g), j);
  }

  /** Each representative is the input's last record of its group. */
  ghost predicate LastOfGroups(kind: Kind, xs: seq<FormatInfo>, rs: seq<FormatInfo>) {
    forall i :: 0 <= i < |rs| ==>
      exists j :: 0 <= j < |xs| && xs[j] == rs[i] &&
        forall j' :: j < j' < |xs| ==> !SameGroup(kind, xs[j'], rs[i])
  }

  /** No two representatives share a group. */
  predicate OnePerGroup(kind: Kind, rs: seq<FormatInfo>) {
    forall i, i' :: 0 <= i < i' < |rs| ==> !SameGroup(kind, rs[i], rs[i'])
  }

  /** Every input record's group is represented. */
  ghost predicate CoversAll(kind: Kind, xs: seq<FormatInfo>, rs: seq<FormatInfo>) {
    forall j :: 0 <= j < |xs| ==> exists i :: 0 <= i < |rs| && SameGroup(kind, rs[i], xs[j])
  }

  /** Groups come in the order of their first record in the input. */
  predicate FirstAppearanceOrder(kind: Kind, xs: seq<FormatInfo>, rs: seq<FormatInfo>) {
    forall i, i' :: 0 <= i < i' < |rs| ==> FirstOfGroup(kind, xs, rs[i]) < FirstOfGroup(kind, xs, rs[i'])
  }

  /** On a clean list every key has a non-empty group, so the grouping loop does not raise. */
  lemma CleanGroupingSucceeds(kind: Kind, xs: seq<FormatInfo>)
    requires Clean(kind, xs)
    ensures Keyable(kind, xs) && KeysFit(kind, DictKeys(kind, xs))
    ensures Representatives(kind, xs) == Collect(kind, xs, DictKeys(kind, xs))
    ensures Representatives(kind, xs).Some?
  {
    var ks := KeysOf(kind, xs);
    var keys := DictKeys(kind, xs);
    assert keys == Distinct(ks);
    VideoKeysFit(kind, xs);
    forall i | 0 <= i < |keys| ensures Group(kind, xs, keys[i]) != [] {
      assert keys[i] in ks;
      var j :| 0 <= j < |ks| && ks[j] == keys[i];
      CleanKeys(kind, xs[j], xs[j]);
      GroupLast(kind, xs, keys[i]);
    }
    CollectShape(kind, xs, keys);
  }

  /** The i-th representative is a record of the input that carries the i-th dictionary key. */
  lemma CleanRepresentative(kind: Kind, xs: seq<FormatInfo>, i: nat)
    requires Clean(kind, xs)
    requires Representatives(kind, xs).Some? && i < |Representatives(kind, xs).value|
    ensures var rs := Representatives(kind, xs).value;
      && |rs| == |DictKeys(kind, xs)|
      && rs[i] in xs && KeyOf(kind, rs[i]) == DictKeys(kind, xs)[i]
      && exists j :: 0 <= j < |xs| && xs[j] == rs[i] &&
           forall j' :: j < j' < |xs| ==> !SameGroup(kind, xs[j'], rs[i])
  {
    var ks := KeysOf(kind, xs);
    var keys := DictKeys(kind, xs);
    assert keys == Distinct(ks);
    CleanGroupingSucceeds(kind, xs);
    CollectShape(kind, xs, keys);
    var rs := Representatives(kind, xs).value;
    var k := keys[i];
    assert k in ks;
    var m :| 0 <= m < |ks| && ks[m] == k;
    var g := xs[m];
    GroupLast(kind, xs, k);
    var j :| 0 <= j < |xs| && xs[j] == rs[i] && InGroup(kind, k, xs[j]) &&
             forall j' :: j < j' < |xs| ==> !InGroup(kind, k, xs[j']);
    CleanKeys(kind, rs[i], g);
    forall j' | j < j' < |xs| ensures !SameGroup(kind, xs[j'], rs[i]) {
      CleanKeys(kind, xs[j'], g);
    }
  }

  lemma CleanLastOfGroups(kind: Kind, xs: seq<FormatInfo>)
    requires Clean(kind, xs) && Representatives(kind, xs).Some?
    ensures LastOfGroups(kind, xs, Representatives(kind, xs).value)
  {
    var rs := Representatives(kind, xs).value;
    forall i | 0 <= i < |rs|
      ensures exists j :: 0 <= j < |xs| && xs[j] == rs[i] &&
                forall j' :: j < j' < |xs| ==> !SameGroup(kind, xs[j'], rs[i])
    {
      CleanRepresentative(kind, xs, i);
    }
  }

  lemma CleanOnePerGroup(kind: Kind, xs: seq<FormatInfo>)
    requires Clean(kind, xs) && Representatives(kind, xs).Some?
    ensures OnePerGroup(kind, Representatives(kind, xs).value)
  {
    var rs := Representatives(kind, xs).value;
    var keys := DictKeys(kind, xs);
    DistinctOrder(KeysOf(kind, xs));
    forall i, i' | 0 <= i < i' < |rs| ensures !SameGroup(kind, rs[i], rs[i']) {
      CleanRepresentative(kind, xs, i);
      CleanRepresentative(kind, xs, i');
      CleanKeys(kind, rs[i], rs[i']);
    }
  }

  lemma CleanCoversAll(kind: Kind, xs: seq<FormatInfo>)
    requires Clean(kind, xs) && Representatives(kind, xs).Some?
    ensures CoversAll(kind, xs, Representatives(kind, xs).value)
  {
    var rs := Representatives(kind, xs).value;
    var ks := KeysOf(kind, xs);
    var keys := DictKeys(kind, xs);
    assert keys == Distinct(ks);
    CleanGroupingSucceeds(kind, xs);
    CollectShape(kind, xs, keys);
    forall j | 0 <= j < |xs| ensures exists i :: 0 <= i < |rs| && SameGroup(kind, rs[i], xs[j]) {
      assert ks[j] in keys;
      var i :| 0 <= i < |keys| && keys[i] == ks[j];
      CleanRepresentative(kind, xs, i);
      CleanKeys(kind, rs[i], xs[j]);
    }
  }

  lemma CleanFirstAppearanceOrder(kind: Kind, xs: seq<FormatInfo>)
    requires Clean(kind, xs) && Representatives(kind, xs).Some?
    ensures FirstAppearanceOrder(kind, xs, Representatives(kind, xs).value)
  {
    var rs := Representatives(kind, xs).value;
    var ks := KeysOf(kind, xs);
    assert DictKeys(kind, xs) == Distinct(ks);
    DistinctOrder(ks);
    forall i, i' | 0 <= i < i' < |rs|
      ensures FirstOfGroup(kind, xs, rs[i]) < FirstOfGroup(kind, xs, rs[i'])
    {
      CleanRepresentative(kind, xs, i);
      CleanRepresentative(kind, xs, i');
      FirstOfGroupIsFirstKey(kind, xs, rs[i]);
      FirstOfGroupIsFirstKey(kind, xs, rs[i']);
    }
  }

  /**
   * The grouping step on a clean list succeeds and returns one record per
   * group: each is the last record of its group in the input, no two share
   * a group, every input record's group is represented, and the groups come
   * in the order of their first record in the input.
   */
  lemma GroupingKeepsLastOfEachGroup(kind: Kind, xs: seq<FormatInfo>)
    requires Clean(kind, xs)
    ensures Representatives(kind, xs).Some?
    ensures LastOfGroups(kind, xs, Representatives(kind, xs).value)
    ensures OnePerGroup(kind, Representatives(kind, xs).value)
    ensures CoversAll(kind, xs, Representatives(kind, xs).value)
    ensures FirstAppearanceOrder(kind, xs, Representatives(kind, xs).value)
  {
    CleanGroupingSucceeds(kind, xs);
    CleanLastOfGroups(kind, xs);
    CleanOnePerGroup(kind, xs);
    CleanCoversAll(kind, xs);
    CleanFirstAppearanceOrder(kind, xs);
  }
}
