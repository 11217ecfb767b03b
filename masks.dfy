/**
  The quality-flag masks of sat_lib.py: `make_bool_mask`, which turns a Landsat
  fmask grid into a 1/0 sampling mask (1 = clear land), and `mask_image`, which
  blanks out the pixels of an image whose fmask has any of a set of bits.
  Flags are 8-bit: bit 0 cirrus, bit 1 cloud, bit 5 water.
 */
module Masks {
  import opened Grid

  /** `mask_select`: water (bit 5), cloud (bit 1) and cirrus (bit 0). */
  const MaskSelect: bv8 := 0x23
  /** The placeholder `make_bool_mask` writes while swapping 0 and 1. */
  const Sentinel: bv8 := 9
  /** The placeholder `mask_image` writes on every flagged pixel. */
  const Placeholder: bv8 := 40

  /** The direct rule: a pixel may be sampled exactly when none of the selected bits is set. */
  function UsableFlag(f: bv8): bv8
  {
    if f & MaskSelect == 0 then 1 else 0
  }

  /** The value lines 62-64 leave in a pixel: 1 for cloud, cirrus or water, 0 for the rest. */
  function Classified(f: bv8): (r: bv8)
    ensures r == 0 || r == 1
    ensures r == 1 <==> f & MaskSelect != 0
  {
    AssignedWhere(AssignedWhere(f & MaskSelect, v => v > 0, 1), v => v == 0, 0)
  }

  /**
    The three sentinel passes of lines 69-71 applied to one pixel: on a 0/1 flag
    they swap 0 and 1, and no sentinel survives them.
   */
  function SentinelSwapped(v: bv8): (r: bv8)
    ensures v == 0 || v == 1 ==> r == 1 - v
    ensures r != Sentinel
  {
    AssignedWhere(AssignedWhere(AssignedWhere(v, x => x == 1, Sentinel), x => x == 0, 1), x => x == Sentinel, 0)
  }

  /** Classifying and then swapping with the sentinel is the direct rule. */
  lemma SentinelDanceIsDirectRule(f: bv8)
    ensures SentinelSwapped(Classified(f)) == UsableFlag(f)
  {
  }

  /** The direct rule bit by bit: 1 exactly when the cirrus, cloud and water bits are all clear. */
  lemma UsableFlagBits(f: bv8)
    ensures UsableFlag(f) == 0 || UsableFlag(f) == 1
    ensures UsableFlag(f) == 1 <==> f & 0x01 == 0 && f & 0x02 == 0 && f & 0x20 == 0
  {
  }

  /** A clear pixel is usable; a pixel with the cloud, cirrus or water bit is not. */
  lemma UsableFlagExamples()
    ensures UsableFlag(0) == 1
    ensures UsableFlag(0x02) == 0 && UsableFlag(0x20) == 0 && UsableFlag(0x01) == 0
    ensures forall f: bv8 :: f & 0x02 != 0 ==> UsableFlag(f) == 0
  {
  }

  /**
    `make_bool_mask`: a new grid of the shape of `fmask` holding 1 where the pixel
    is clear land and 0 elsewhere. `fmask` is not in any frame, so it is never
    written; the scratch grids are fresh. After line 68 `bool_mask` is a view of
    `masked_values`: the same buffer, so each pass reads what the previous one
    wrote.
   */
  method MakeBoolMask(fmask: array2<bv8>) returns (boolMask: array2<bv8>)
    ensures fresh(boolMask)
    ensures boolMask.Length0 == fmask.Length0 && boolMask.Length1 == fmask.Length1
    ensures forall i, j :: 0 <= i < fmask.Length0 && 0 <= j < fmask.Length1 ==>
      boolMask[i, j] == UsableFlag(fmask[i, j])
  {
    var refMask := ZerosLike(fmask);
    AssignWhere(refMask, _ => true, MaskSelect);
    var maskedValues := Combine(fmask, refMask, (f, s) => f & s);
    AssignWhere(maskedValues, v => v > 0, 1);
    AssignWhere(maskedValues, v => v == 0, 0);
    boolMask := maskedValues;
    AssignWhere(boolMask, v => v == 1, Sentinel);
    AssignWhere(boolMask, v => v == 0, 1);
    AssignWhere(boolMask, v => v == Sentinel, 0);
    forall i, j | 0 <= i < fmask.Length0 && 0 <= j < fmask.Length1
      ensures boolMask[i, j] == UsableFlag(fmask[i, j])
    {
      SentinelDanceIsDirectRule(fmask[i, j]);
    }
  }

  /**
    A cell of the float32 multiplier grid: a number or NaN. `Num` holds the
    exact value the float32 stands for; float32 rounding is not modelled.
   */
  datatype MultiplierCell = Num(x: real) | NaN

  /** An image pixel: a value, or missing (NaN in the source). */
  datatype Pixel = Valid(v: real) | NoData

  /** Element-wise product of an image pixel and a multiplier: 1 keeps the pixel, NaN absorbs it. */
  function Times(p: Pixel, m: MultiplierCell): (r: Pixel)
    ensures m == Num(1.0) ==> r == p
    ensures m == NaN || p == NoData ==> r == NoData
  {
    match (p, m)
    case (Valid(v), Num(x)) => Valid(v * x)
    case _ => NoData
  }

  /**
    The direct rule for `mask_image`: a pixel is blanked where its flags meet
    the mask and is kept as it is elsewhere, so a missing pixel stays missing.
   */
  function MaskedPixel(p: Pixel, f: bv8, maskValue: bv8): Pixel
  {
    if f & maskValue != 0 then NoData else p
  }

  /** The multiplier lines 169-183 compute for one flag: 1 for a good pixel, NaN for a hit. */
  function Multiplier(f: bv8, maskValue: bv8): (r: MultiplierCell)
    ensures f & maskValue == 0 <==> r == Num(1.0)
    ensures f & maskValue != 0 <==> r == NaN
  {
    var placed := AssignedWhere(f & maskValue, v => v > 0, Placeholder);
    var cell := Num(placed as int as real);
    AssignedWhere(AssignedWhere(cell, x => x == Num(40.0), NaN), x => x == Num(0.0), Num(1.0))
  }

  /** Multiplying by the multiplier grid keeps good pixels unchanged and blanks hits. */
  lemma MultiplierMasks(p: Pixel, f: bv8, maskValue: bv8)
    ensures Times(p, Multiplier(f, maskValue)) == MaskedPixel(p, f, maskValue)
  {
  }

  /**
    `mask_image`: a new image whose pixel is missing where `fmask & maskValue`
    is nonzero and is the input pixel elsewhere. The input image and fmask are
    in no frame, so neither is written.
   */
  method MaskImage(image: array2<Pixel>, fmask: array2<bv8>, maskValue: bv8) returns (masked: array2<Pixel>)
    requires image.Length0 == fmask.Length0 && image.Length1 == fmask.Length1
    ensures fresh(masked)
    ensures masked.Length0 == image.Length0 && masked.Length1 == image.Length1
    ensures forall i, j :: 0 <= i < image.Length0 && 0 <= j < image.Length1 ==>
      masked[i, j] == MaskedPixel(image[i, j], fmask[i, j], maskValue)
  {
    var refMask := ZerosLike(fmask);
    AssignWhere(refMask, _ => true, maskValue);
    var maskedValues := Combine(fmask, refMask, (f, s) => f & s);
    AssignWhere(maskedValues, v => v > 0, Placeholder);
    var fmaskFloat := MapGrid(maskedValues, (v: bv8) => Num(v as int as real));
    AssignWhere(fmaskFloat, x => x == Num(40.0), NaN);
    AssignWhere(fmaskFloat, x => x == Num(0.0), Num(1.0));
    masked := Combine(image, fmaskFloat, Times);
    forall i, j | 0 <= i < image.Length0 && 0 <= j < image.Length1
      ensures masked[i, j] == MaskedPixel(image[i, j], fmask[i, j], maskValue)
    {
      MultiplierMasks(image[i, j], fmask[i, j], maskValue);
    }
  }

  /** A mask value of 0 selects nothing: every pixel comes back unchanged. */
  lemma MaskNothingIsIdentity(p: Pixel, f: bv8)
    ensures MaskedPixel(p, f, 0) == p
  {
  }

  /** A mask value of 0xff blanks every pixel whose flags are not all clear. */
  lemma MaskEveryBitBlanksFlagged(p: Pixel, f: bv8)
    requires f != 0
    ensures MaskedPixel(p, f, 0xff) == NoData
  {
  }

  /**
    The two masks agree: with `mask_select` as the mask value, `mask_image`
    keeps a valid pixel exactly where `make_bool_mask` marks it usable.
   */
  lemma MasksAgree(p: Pixel, f: bv8)
    requires p.Valid?
    ensures MaskedPixel(p, f, MaskSelect) == p <==> UsableFlag(f) == 1
    ensures MaskedPixel(p, f, MaskSelect) == NoData <==> UsableFlag(f) == 0
  {
  }
}
