/**
 * The size-variant table `pictureOptims` of bin/web.js: every configured
 * picture size yields a webp entry followed by an avif entry, labelled by the
 * size's position.
 */
module Optims {
  import opened Common

  /** One entry of the table: the size in pixels, the picture label and whether the avif encoding is meant. */
  datatype Optim = Optim(size: int, sizeLabel: string, avif: bool)

  const DefaultSizes: seq<int> := [700, 350]

  /**
   * `pictureSizes || [700, 350]`: an absent setting falls back to the
   * defaults; a configured list is used as it is, even an empty one (an empty
   * array is truthy).
   */
  function ConfiguredSizes(pictureSizes: Option<seq<int>>): (sizes: seq<int>)
    ensures pictureSizes.None? ==> sizes == DefaultSizes
    ensures pictureSizes.Some? ==> sizes == pictureSizes.value
  {
    if pictureSizes.Some? then pictureSizes.value else DefaultSizes
  }

  /** The label of the size at position `i`. */
  function SizeLabel(i: nat): (l: string)
    ensures l == "big" <==> i == 0
    ensures l == "normal" <==> i == 1
    ensures l == "small" <==> i >= 2
  {
    if i == 0 then "big" else if i == 1 then "normal" else "small"
  }

  /** The table built from `sizes`: entry 2i is size i in webp, entry 2i+1 the same size in avif. */
  ghost predicate IsTable(optims: seq<Optim>, sizes: seq<int>)
  {
    && |optims| == 2 * |sizes|
    && forall i :: 0 <= i < |sizes| ==>
         && optims[2 * i] == Optim(sizes[i], SizeLabel(i), false)
         && optims[2 * i + 1] == Optim(sizes[i], SizeLabel(i), true)
  }

  /** The `reduce` over the configured sizes that pushes two entries per size into an accumulator. */
  method BuildOptims(pictureSizes: Option<seq<int>>) returns (optims: seq<Optim>)
    ensures IsTable(optims, ConfiguredSizes(pictureSizes))
    ensures |optims| == 2 * |ConfiguredSizes(pictureSizes)|
    ensures forall j :: 0 <= j < |optims| ==> optims[j].sizeLabel != "zoom"
  {
    var sizes := if pictureSizes.Some? then pictureSizes.value else [700, 350];
    optims := [];
    for i := 0 to |sizes|
      invariant IsTable(optims, sizes[..i])
    {
      var sizeLabel := if i == 0 then "big" else if i == 1 then "normal" else "small";
      assert sizeLabel == SizeLabel(i);
      TableStep(optims, sizes[..i], sizes[i]);
      assert sizes[..i + 1] == sizes[..i] + [sizes[i]];
      optims := optims + [Optim(sizes[i], sizeLabel, false), Optim(sizes[i], sizeLabel, true)];
    }
    assert sizes[..|sizes|] == sizes;
    forall j | 0 <= j < |optims|
      ensures optims[j].sizeLabel != "zoom"
    {
      TableEntry(optims, sizes, j);
    }
  }

  /** Pushing the two entries of the next size extends a table by that size. */
  lemma TableStep(optims: seq<Optim>, sizes: seq<int>, size: int)
    requires IsTable(optims, sizes)
    ensures IsTable(optims + [Optim(size, SizeLabel(|sizes|), false), Optim(size, SizeLabel(|sizes|), true)], sizes + [size])
  {
    var next := optims + [Optim(size, SizeLabel(|sizes|), false), Optim(size, SizeLabel(|sizes|), true)];
    forall i | 0 <= i < |sizes|
      ensures next[2 * i] == optims[2 * i] && next[2 * i + 1] == optims[2 * i + 1]
    {
    }
  }

  /** In a table every label is `big`, `normal` or `small`, and the entry at j belongs to size j / 2. */
  lemma TableEntry(optims: seq<Optim>, sizes: seq<int>, j: nat)
    requires IsTable(optims, sizes) && j < |optims|
    ensures optims[j] == Optim(sizes[j / 2], SizeLabel(j / 2), j % 2 == 1)
    ensures optims[j].sizeLabel != "zoom"
  {
    var i := j / 2;
    assert j == 2 * i || j == 2 * i + 1;
  }
}
