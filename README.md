# a301_extras satellite-raster helpers: a Dafny model of the flag masks and false-colour metadata

`sat_lib.py` holds the raster helpers of the a301_extras course package for
Landsat and GOES scenes. This project models the parts of it that hold logic
of their own:

- **`make_bool_mask`** turns a Landsat fmask grid into a sampling mask. A flag
  is 8 bits: bit 0 is cirrus, bit 1 cloud and bit 5 water. A pixel gets 1 when
  none of those bits is set (clear land) and 0 otherwise. The source first
  classifies each pixel as 1 (cloud or water) or 0. It then inverts that grid
  in place with three masked assignments that use 9 as a placeholder, on a
  buffer that `bool_mask` and `masked_values` share. `Masks.MakeBoolMask`
  replays each masked assignment as a loop over an `array2<bv8>` (see
  `Grid.AssignWhere`). It proves that the result is the direct rule,
  pixel by pixel, and that the input grid is never written.
- **`mask_image`** ANDs the fmask with a caller's bit mask. Every hit becomes
  the placeholder 40, then NaN, and every other pixel becomes a multiplier of
  1. The image is then multiplied by that grid. A pixel is modelled as
  `Valid(v) | NoData` and a multiplier cell as `Num(x) | NaN`, where `Num`
  holds the exact value standing for a float32. `Masks.MaskImage` proves that
  a pixel is `NoData` where `fmask & mask_value != 0`; elsewhere it equals the
  input pixel, so an input `NoData` stays `NoData`.
- **`make_false_color`**, its list and dictionary logic:
  - band names are assigned to red, green and blue in order;
  - the three layers are stacked;
  - the band coordinate is `int(name[-1])`;
  - the attribute set is filtered;
  - failures come in the order the source meets them.

Modules: `Grid` (the numpy element-wise operations the source uses),
`Masks` (`make_bool_mask`, `mask_image`) and `FalseColor` (`make_false_color`).

Two facts about the code that a reader may not expect:
- The band coordinate is the value of the last character of each band name:
  "B06" gives 6, "B10" gives 0 and "B11" gives 1
  (`FalseColor.BandNumberReadsLastCharacter`).
- The multiplier grid of `mask_image` holds 1 for a clear pixel and NaN for a
  hit.

## Model

| member | source | states |
|---|---|---|
| `Grid.AssignWhere` | src/a301_extras/sat_lib.py:69-71 | `a[cond(a)] = w` on a 2-D buffer. Each element whose OLD value meets the condition becomes `w`; every other element keeps its old value. |
| `Grid.AssignedWhere` | src/a301_extras/sat_lib.py:63 | The value one element holds after `a[cond] = w`. It is `w` when the element is selected; an element that changes was selected and became `w`. |
| `Grid.ZerosLike` | src/a301_extras/sat_lib.py:60 | `np.zeros_like` allocates a new grid of the input's shape, filled with 0. |
| `Grid.Combine` | src/a301_extras/sat_lib.py:62 | A vectorised binary operation gives a new grid of the common shape. Each element is the operation applied to the two corresponding elements. |
| `Grid.MapGrid` | src/a301_extras/sat_lib.py:175 | `astype` gives a new grid of the same shape. Each element is the conversion of the corresponding element. |
| `Masks.Classified` | src/a301_extras/sat_lib.py:62-64 | One pixel after the AND with `0b00100011` and the two passes of lines 63-64 is 0 or 1. It is 1 exactly when its cirrus, cloud or water bit is set. |
| `Masks.SentinelSwapped` | src/a301_extras/sat_lib.py:69-71 | One pixel after the three sentinel passes (1→9, 0→1, 9→0). On a 0/1 value they give `1 - v`, and the sentinel 9 never survives, whatever the value. |
| `Masks.SentinelDanceIsDirectRule` | src/a301_extras/sat_lib.py:59-71 | Classifying and then running the sentinel passes equals the direct rule: 1 iff `f & 0x23 == 0`, else 0. |
| `Masks.UsableFlagBits` | src/a301_extras/sat_lib.py:59 | The direct rule gives only 0 or 1. It gives 1 exactly when bits 0, 1 and 5 are all clear. |
| `Masks.UsableFlagExamples` | src/a301_extras/sat_lib.py:46-48 | A flag of 0 is usable. Cloud alone, water alone and cirrus alone are each excluded. Any flag with the cloud bit is excluded. |
| `Masks.MakeBoolMask` | src/a301_extras/sat_lib.py:43-72 | The result is a new grid of the input's shape. Each pixel is 1 iff `fmask & 0x23 == 0`, else 0, so every value is 0 or 1. The input grid is in no frame, so it is never written. |
| `Masks.Multiplier` | src/a301_extras/sat_lib.py:169-183 | The multiplier one flag gets after the placeholder 40, the float conversion and the 40 → NaN and 0 → 1 passes. It is 1 exactly when `f & mask_value == 0` and NaN exactly when it is nonzero. |
| `Masks.Times` | src/a301_extras/sat_lib.py:188 | The element-wise `*` of an image pixel and a multiplier. A multiplier of 1 returns the pixel unchanged; a NaN multiplier or a NaN pixel gives NaN (`NoData`). |
| `Masks.MultiplierMasks` | src/a301_extras/sat_lib.py:169-188 | Per pixel, the multiplier from the placeholder-40 → NaN / 0 → 1 passes is applied to the image value. The product is `NoData` where the flag meets the mask and the unchanged pixel elsewhere. |
| `Masks.MaskImage` | src/a301_extras/sat_lib.py:145-189 | The result is a new image of the input's shape. A pixel is `NoData` where `fmask & mask_value != 0`; elsewhere it equals the input pixel, so an input `NoData` stays `NoData`. Neither input is written. |
| `Masks.MaskNothingIsIdentity` | src/a301_extras/sat_lib.py:166-188 | A mask value of 0 leaves every pixel unchanged. |
| `Masks.MaskEveryBitBlanksFlagged` | src/a301_extras/sat_lib.py:166-188 | A mask value of `0xff` blanks every pixel whose flag is nonzero. |
| `Masks.MasksAgree` | src/a301_extras/sat_lib.py:158 | With `0b00100011` as the mask value, `mask_image` keeps a valid pixel exactly where `make_bool_mask` marks it 1. It blanks the pixel exactly where the mask is 0. |
| `FalseColor.ZipLength` | src/a301_extras/sat_lib.py:105 | `zip` over the three colour names and the band names yields `min(3, len(band_names))` pairs. |
| `FalseColor.BandNumber` | src/a301_extras/sat_lib.py:133 | `int(name[-1])` succeeds exactly when the name is non-empty and ends in a digit, giving that digit's value (0..9). An empty name raises an IndexError (`IndexOutOfRange`); any other last character raises a ValueError (`NotAnInteger`) naming it. |
| `FalseColor.BandNumberOfDigit` | src/a301_extras/sat_lib.py:133 | Reading back a digit written after any prefix gives that digit. |
| `FalseColor.BandNumberReadsLastCharacter` | src/a301_extras/sat_lib.py:133 | "B06" gives 6, "B10" gives 0, "B11" gives 1, and "B1a" is a ValueError. |
| `FalseColor.BandNumbers` | src/a301_extras/sat_lib.py:133 | The comprehension succeeds iff every name parses. It then gives one number per name, in order, each that name's digit. Otherwise it fails with the error of the first name that does not parse. |
| `FalseColor.BandNumbersOfExample` | src/a301_extras/sat_lib.py:84 | The usage example `['B06','B05','B04']` gets band coordinate `[6, 5, 4]`. |
| `FalseColor.CompositeAttrs` | src/a301_extras/sat_lib.py:128-132 | The output keys are the source keys among cloud_cover, date, day, target_lat and target_lon, plus `history` and `landsat_rgb_bands`. Kept values are unchanged, `history` is "written by make_false_color" and `landsat_rgb_bands` is the band-name list. |
| `FalseColor.CompositeAttrsIgnoresDropped` | src/a301_extras/sat_lib.py:128-130 | Adding or changing a source attribute outside the five kept keys does not change the output attributes. |
| `FalseColor.SelectRgb` | src/a301_extras/sat_lib.py:100-107 | Succeeds iff each of the first `min(3, n)` band names is in the dataset. Red, green and blue then map to the datasets of `band_names[0]`, `[1]` and `[2]`, and only those colours are keys. Otherwise it fails with a KeyError for the first missing name. |
| `FalseColor.StackRgb` | src/a301_extras/sat_lib.py:117-124 | Layer 0 is the red entry, 1 the green and 2 the blue. A missing colour gives a KeyError for the first one missing. |
| `FalseColor.MakeFalseColor` | src/a301_extras/sat_lib.py:99-143 | Succeeds iff there are exactly three band names, all present, an `fmask` variable exists and every name ends in a digit. The layers are then those bands in order, the band coordinate is their digits and the attributes are the filtered set. Failures come in the source's order: a missing band (line 107), a missing fmask (110), a missing colour when fewer than three names are given (123), a name that does not parse (133), and a band coordinate longer than the data when more than three names are given (138). |

## Left out

- `make_dataset` and `make_new_rioxarray` are thin xarray/rioxarray constructors. Writing the CRS, transform and no-data value is a library call.
- `get_goes` is network retrieval and file download through `goes_nearesttime`.
- `get_affine` and `get_rowcol` are floating-point means and the inverse taken by the `affine` library, followed by `np.round`. They are float numerics over a foreign type.
- Histogram equalisation (`exposure.equalize_hist`, line 116) and `img_as_ubyte` (line 124) are floating-point library code. They are not modelled. So neither is the loop of lines 115-116 that overwrites each colour with its equalised image, nor the use there of the mask from `make_bool_mask`. A composite layer is the selected band raster itself, not its 8-bit rescaled image.
- The CRS and transform read and written in `make_false_color` (lines 108-109, 141-142) and the `x`/`y` coordinate lookups (line 134) are not modelled.
- `.squeeze()` (line 99) and `make_bool_mask` reading `.data` of an ndarray (lines 58, 110-111) are left out. The fmask is taken as an 8-bit grid; other integer dtypes are not modelled.
- `Masks.MaskImage`: returns a bare pixel grid. The source returns `deepcopy(image_da)` with `.data` replaced (lines 187-189), so its result keeps the input's coordinates, attributes, name and CRS encoding; that metadata is not modelled. The source's result is also a float array even for an integer image (the product with the float32 multiplier grid); the model keeps exact values and does not model that change of type.
- `Masks.MaskImage`: requires the image and the fmask to have the same shape. numpy broadcasting of other shapes, or its error, is not modelled.
- Pixel values are exact reals, not float32/float64. Multiplying by 1 is exact in both, so the masked result is unaffected.
- Attribute values are text, numbers or lists of text. The insertion order of the attribute dictionary is not modelled, because a Dafny map has no order.
- `FalseColor.BandNumber`: only the ASCII digits 0-9 are read as numbers. Python's `int` also accepts other Unicode decimal digits, which this model reports as `NotAnInteger`.
- `FalseColor.MakeFalseColor`: checks only that an `fmask` variable exists. Building the sampling mask from it is `Masks.MakeBoolMask`, over arrays. The xarray error raised when the band coordinate and the data differ in length is modelled as `SizeConflict`.
