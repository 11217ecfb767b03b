/**
  The list and dictionary logic of `make_false_color` in sat_lib.py: which
  bands become red, green and blue, the stacking of the three layers, the
  band-number coordinate parsed from the band names, the reduced attribute
  set, and the order in which the function fails. The band rasters themselves
  are opaque values of type `B`; the histogram equalisation that turns them
  into 8-bit layers is not part of this model.
 */
module FalseColor {

  /** The failures `make_false_color` lets escape. */
  datatype Error =
    | KeyNotFound(key: string)        // KeyError from a dataset or dictionary lookup
    | IndexOutOfRange                 // IndexError from `item[-1]` on an empty name
    | NotAnInteger(text: string)      // ValueError from `int(...)`
    | SizeConflict(coord: nat, data: nat)  // the "band" coordinate and the data disagree in length

  datatype Result<T> = Ok(value: T) | Err(error: Error)

  /** A metadata value: the attributes carry strings, numbers and the band-name list. */
  datatype AttrValue = Text(text: string) | Number(number: real) | TextList(texts: seq<string>)

  /** A dataset built by `make_dataset`: named band rasters and the scene attributes. */
  datatype Dataset<B> = Dataset(vars: map<string, B>, attrs: map<string, AttrValue>)

  /** The false-colour raster: three layers in red, green, blue order, the band coordinate, the attributes. */
  datatype Composite<B> = Composite(layers: seq<B>, band: seq<int>, attrs: map<string, AttrValue>)

  const RgbNames: seq<string> := ["band_red", "band_green", "band_blue"]
  const KeepAttrs: set<string> := {"cloud_cover", "date", "day", "target_lat", "target_lon"}
  const History: string := "written by make_false_color"

  /** How many pairs `zip(rgb_names, band_names)` yields. */
  function ZipLength(names: seq<string>): (n: nat)
    ensures n <= 3 && n <= |names|
    ensures n == 3 || n == |names|
  {
    if |names| < 3 then |names| else 3
  }

  /** Index `k` holds the first name of `names` that `vars` lacks. */
  ghost predicate FirstMissing<B>(vars: map<string, B>, names: seq<string>, k: int)
  {
    0 <= k < |names| && names[k] !in vars && forall j :: 0 <= j < k ==> names[j] in vars
  }

  /** The character `int` reads as the decimal digit `d`. */
  function DigitChar(d: nat): (c: char)
    requires d <= 9
    ensures '0' <= c <= '9'
  {
    ('0' as int + d) as char
  }

  /** `int(item[-1])`: the value of the last character of a band name, read as a decimal digit. */
  function BandNumber(name: string): (r: Result<int>)
    ensures r.Ok? <==> |name| > 0 && '0' <= name[|name| - 1] <= '9'
    ensures r.Ok? ==> 0 <= r.value <= 9 && DigitChar(r.value) == name[|name| - 1]
    ensures |name| == 0 ==> r == Err(IndexOutOfRange)
    ensures |name| > 0 && !('0' <= name[|name| - 1] <= '9') ==> r == Err(NotAnInteger([name[|name| - 1]]))
  {
    if |name| == 0 then Err(IndexOutOfRange)
    else
      var c := name[|name| - 1];
      if '0' <= c <= '9' then Ok(c as int - '0' as int) else Err(NotAnInteger([c]))
  }

  /** Writing a digit after any prefix and reading it back gives the digit. */
  lemma BandNumberOfDigit(prefix: string, d: nat)
    requires d <= 9
    ensures BandNumber(prefix + [DigitChar(d)]) == Ok(d)
  {
  }

  /** Only the last character counts: "B06" is band 6, but "B10" is band 0 and "B11" band 1. */
  lemma BandNumberReadsLastCharacter()
    ensures BandNumber("B06") == Ok(6)
    ensures BandNumber("B10") == Ok(0) && BandNumber("B11") == Ok(1)
    ensures BandNumber("B1a") == Err(NotAnInteger("a"))
  {
  }

  /**
    `[int(item[-1]) for item in band_names]`: one number per name, in order, or
    the error of the first name that does not parse.
   */
  function BandNumbers(names: seq<string>): (r: Result<seq<int>>)
    ensures r.Ok? <==> forall i :: 0 <= i < |names| ==> BandNumber(names[i]).Ok?
    ensures r.Ok? ==> |r.value| == |names|
    ensures r.Ok? ==> forall i :: 0 <= i < |names| ==> Ok(r.value[i]) == BandNumber(names[i])
    ensures r.Err? ==> exists k :: 0 <= k < |names| && FirstUnparsed(names, k) && r.error == BandNumber(names[k]).error
  {
    if names == [] then Ok([])
    else
      match BandNumber(names[0])
      case Err(e) =>
        assert FirstUnparsed(names, 0);
        Err(e)
      case Ok(d) =>
        match BandNumbers(names[1..])
        case Err(e) =>
          assert exists k :: 0 <= k < |names| && FirstUnparsed(names, k) && e == BandNumber(names[k]).error by {
            var k :| 0 <= k < |names[1..]| && FirstUnparsed(names[1..], k) && e == BandNumber(names[1..][k]).error;
            assert FirstUnparsed(names, k + 1);
          }
          Err(e)
        case Ok(ds) => Ok([d] + ds)
  }

  /** Index `k` holds the first name of `names` whose number does not parse. */
  ghost predicate FirstUnparsed(names: seq<string>, k: int)
  {
    0 <= k < |names| && BandNumber(names[k]).Err? && forall j :: 0 <= j < k ==> BandNumber(names[j]).Ok?
  }

  /** The numbers of the three names in the usage example of `make_false_color`. */
  lemma BandNumbersOfExample()
    ensures BandNumbers(["B06", "B05", "B04"]) == Ok([6, 5, 4])
  {
    var names := ["B06", "B05", "B04"];
    BandNumberOfDigit("B0", 6);
    BandNumberOfDigit("B0", 5);
    BandNumberOfDigit("B0", 4);
    var r := BandNumbers(names);
    assert r.Ok? && r.value[0] == 6 && r.value[1] == 5 && r.value[2] == 4;
    assert r.value == [6, 5, 4];
  }

  /**
    The attributes of the composite: the source attributes whose key is one of
    the five kept keys, unchanged, plus the provenance string and the band names.
   */
  function CompositeAttrs(attrs: map<string, AttrValue>, bandNames: seq<string>): (r: map<string, AttrValue>)
    ensures r.Keys == (attrs.Keys * KeepAttrs) + {"history", "landsat_rgb_bands"}
    ensures forall k :: k in attrs && k in KeepAttrs ==> r[k] == attrs[k]
    ensures r["history"] == Text(History)
    ensures r["landsat_rgb_bands"] == TextList(bandNames)
  {
    var kept := map k | k in attrs && k in KeepAttrs :: attrs[k];
    kept["history" := Text(History)]["landsat_rgb_bands" := TextList(bandNames)]
  }

  /** An attribute outside the kept keys has no influence on the composite's attributes. */
  lemma CompositeAttrsIgnoresDropped(attrs: map<string, AttrValue>, bandNames: seq<string>, k: string, v: AttrValue)
    requires k !in KeepAttrs
    ensures CompositeAttrs(attrs[k := v], bandNames) == CompositeAttrs(attrs, bandNames)
  {
  }

  /**
    Lines 100-107: `scene_dict[the_rgb] = the_ds[the_band]` for each pair of
    `zip(rgb_names, band_names)`, in order. Fails on the first band name the
    dataset lacks.
   */
  method SelectRgb<B>(vars: map<string, B>, bandNames: seq<string>) returns (r: Result<map<string, B>>)
    ensures r.Ok? <==> forall i :: 0 <= i < ZipLength(bandNames) ==> bandNames[i] in vars
    ensures r.Ok? ==> r.value.Keys == set i | 0 <= i < ZipLength(bandNames) :: RgbNames[i]
    ensures r.Ok? ==> forall i :: 0 <= i < ZipLength(bandNames) ==>
      RgbNames[i] in r.value && r.value[RgbNames[i]] == vars[bandNames[i]]
    ensures r.Err? ==>
      exists k :: 0 <= k < ZipLength(bandNames) && FirstMissing(vars, bandNames, k) && r.error == KeyNotFound(bandNames[k])
  {
    var sceneDict: map<string, B> := map[];
    var n := ZipLength(bandNames);
    var k := 0;
    while k < n
      invariant 0 <= k <= n
      invariant forall j :: 0 <= j < k ==> bandNames[j] in vars
      invariant sceneDict.Keys == set j | 0 <= j < k :: RgbNames[j]
      invariant forall j :: 0 <= j < k ==> RgbNames[j] in sceneDict && sceneDict[RgbNames[j]] == vars[bandNames[j]]
    {
      if bandNames[k] !in vars {
        assert FirstMissing(vars, bandNames, k);
        return Err(KeyNotFound(bandNames[k]));
      }
      sceneDict := sceneDict[RgbNames[k] := vars[bandNames[k]]];
      k := k + 1;
    }
    return Ok(sceneDict);
  }

  /**
    Lines 117-124: `band_values[index] = scene_dict[key]` for each `key` of
    `rgb_names` in order, so layer 0 is red, 1 green and 2 blue. Fails on the
    first colour the dictionary lacks.
   */
  method StackRgb<B>(sceneDict: map<string, B>) returns (r: Result<seq<B>>)
    ensures r.Ok? <==> forall i :: 0 <= i < 3 ==> RgbNames[i] in sceneDict
    ensures r.Ok? ==> |r.value| == 3 && forall i :: 0 <= i < 3 ==> r.value[i] == sceneDict[RgbNames[i]]
    ensures r.Err? ==> exists k :: FirstMissing(sceneDict, RgbNames, k) && r.error == KeyNotFound(RgbNames[k])
  {
    var bandValues: seq<B> := [];
    var index := 0;
    while index < |RgbNames|
      invariant 0 <= index <= 3
      invariant |bandValues| == index
      invariant forall j :: 0 <= j < index ==> RgbNames[j] in sceneDict && bandValues[j] == sceneDict[RgbNames[j]]
    {
      var key := RgbNames[index];
      if key !in sceneDict {
        assert FirstMissing(sceneDict, RgbNames, index);
        return Err(KeyNotFound(key));
      }
      bandValues := bandValues + [sceneDict[key]];
      index := index + 1;
    }
    return Ok(bandValues);
  }

  /**
    The metadata path of `make_false_color`: the three layers in the order the
    band names give, the band coordinate and the reduced attributes; or the
    first failure, in the order the source meets them.
   */
  method MakeFalseColor<B>(ds: Dataset<B>, bandNames: seq<string>) returns (r: Result<Composite<B>>)
    ensures r.Ok? <==>
      && |bandNames| == 3
      && (forall i :: 0 <= i < 3 ==> bandNames[i] in ds.vars)
      && "fmask" in ds.vars
      && (forall i :: 0 <= i < 3 ==> BandNumber(bandNames[i]).Ok?)
    ensures r.Ok? ==>
      && |r.value.layers| == 3
      && (forall i :: 0 <= i < 3 ==> r.value.layers[i] == ds.vars[bandNames[i]])
      && |r.value.band| == 3
      && (forall i :: 0 <= i < 3 ==> Ok(r.value.band[i]) == BandNumber(bandNames[i]))
      && r.value.attrs == CompositeAttrs(ds.attrs, bandNames)
    // line 107: a requested band is missing
    ensures forall k :: 0 <= k < ZipLength(bandNames) && FirstMissing(ds.vars, bandNames, k) ==>
      r == Err(KeyNotFound(bandNames[k]))
    // line 110: there is no fmask
    ensures (forall i :: 0 <= i < ZipLength(bandNames) ==> bandNames[i] in ds.vars) && "fmask" !in ds.vars ==>
      r == Err(KeyNotFound("fmask"))
    // line 123: fewer than three names leave a colour unassigned
    ensures (forall i :: 0 <= i < |bandNames| ==> bandNames[i] in ds.vars) && "fmask" in ds.vars && |bandNames| < 3 ==>
      r == Err(KeyNotFound(RgbNames[|bandNames|]))
    // line 133: a name does not end in a digit
    ensures && |bandNames| >= 3
            && (forall i :: 0 <= i < 3 ==> bandNames[i] in ds.vars)
            && "fmask" in ds.vars
            && BandNumbers(bandNames).Err?
            ==> r == Err(BandNumbers(bandNames).error)
    // line 138: more than three names give a band coordinate longer than the data
    ensures && |bandNames| > 3
            && (forall i :: 0 <= i < 3 ==> bandNames[i] in ds.vars)
            && "fmask" in ds.vars
            && BandNumbers(bandNames).Ok?
            ==> r == Err(SizeConflict(|bandNames|, 3))
  {
    var selected := SelectRgb(ds.vars, bandNames);
    if selected.Err? {
      return Err(selected.error);
    }
    if "fmask" !in ds.vars {
      return Err(KeyNotFound("fmask"));
    }
    var stacked := StackRgb(selected.value);
    if stacked.Err? {
      return Err(stacked.error);
    }
    var attrs := CompositeAttrs(ds.attrs, bandNames);
    var bandNums := BandNumbers(bandNames);
    if bandNums.Err? {
      return Err(bandNums.error);
    }
    if |bandNums.value| != |stacked.value| {
      return Err(SizeConflict(|bandNums.value|, |stacked.value|));
    }
    return Ok(Composite(stacked.value, bandNums.value, attrs));
  }
}
