/**
 * The unit choice of `get_filesize`: "Unknown" for a missing or zero size,
 * otherwise the first of B, KB, MB, GB in which the scaled size drops below
 * 1024, and no result at all from 1024^4 bytes upwards. The float division
 * and the two-decimal rendering are not modelled; sizes are whole bytes.
 */
module FileSize {
  import opened Wrappers

  datatype SizeUnit = B | KB | MB | GB

  /** What `get_filesize` produces: "Unknown", a text in some unit, or Python's `None`. */
  datatype SizeLabel = Unknown | InUnit(unit: SizeUnit) | NoLabel

  /** The units in the order the loop tries them. */
  const Units: seq<SizeUnit> := [B, KB, MB, GB]

  function UnitName(u: SizeUnit): string {
    match u
    case B => "B"
    case KB => "KB"
    case MB => "MB"
    case GB => "GB"
  }

  /** Position of a unit in `Units`: the number of divisions by 1024 before it is reached. */
  function UnitIndex(u: SizeUnit): (k: nat)
    ensures k < |Units| && Units[k] == u
  {
    match u
    case B => 0
    case KB => 1
    case MB => 2
    case GB => 3
  }

  /** 1024^k. */
  function Pow1024(k: nat): (p: nat)
    ensures p >= 1
  {
    if k == 0 then 1 else 1024 * Pow1024(k - 1)
  }

  const KiB: nat := 1024
  const MiB: nat := 1024 * 1024
  const GiB: nat := 1024 * 1024 * 1024
  const TiB: nat := 1024 * 1024 * 1024 * 1024

  /** The label for a size in bytes; `None` is a missing or null size. */
  function SizeLabelOf(size: Option<int>): SizeLabel {
    match size
    case None => Unknown
    case Some(n) =>
      if n == 0 then Unknown
      else if n < KiB then InUnit(B)
      else if n < MiB then InUnit(KB)
      else if n < GiB then InUnit(MB)
      else if n < TiB then InUnit(GB)
      else NoLabel
  }

  /**
   * Meaning of the label for a positive size: the chosen unit is the one
   * whose scale 1024^k makes the displayed magnitude lie in [1, 1024);
   * no unit is chosen exactly when the size reaches 1024^4.
   */
  lemma {:induction false} LabelScale(n: int)
    requires n >= 1
    ensures SizeLabelOf(Some(n)).InUnit? ==>
      var k := UnitIndex(SizeLabelOf(Some(n)).unit);
      Pow1024(k) <= n < 1024 * Pow1024(k)
    ensures SizeLabelOf(Some(n)) == NoLabel <==> n >= Pow1024(|Units|)
    ensures SizeLabelOf(Some(n)) != Unknown
  {
    assert Pow1024(1) == KiB;
    assert Pow1024(2) == MiB;
    assert Pow1024(3) == GiB;
    assert Pow1024(4) == TiB;
  }

  /**
   * The loop of `get_filesize`. After `i` divisions the float `size` equals
   * `n / 1024^i`, so the test `size < 1024.0` is `n < 1024 * scale` with
   * `scale == 1024^i`; the division is exact because 1024 is a power of two.
   */
  method GetFilesize(size: Option<int>) returns (chosen: SizeLabel)
    ensures chosen == SizeLabelOf(size)
  {
    if size.None? || size.value == 0 {
      return Unknown;
    }
    var n := size.value;
    var scale := 1;
    var i := 0;
    while i < |Units|
      invariant 0 <= i <= |Units|
      invariant scale == Pow1024(i)
      invariant i > 0 ==> n >= scale
    {
      if n < 1024 * scale {
        chosen := InUnit(Units[i]);
        assert i == 0 || i == 1 || i == 2 || i == 3;
        return;
      }
      scale := scale * 1024;
      i := i + 1;
    }
    assert Pow1024(4) == TiB;
    chosen := NoLabel;
  }
}
