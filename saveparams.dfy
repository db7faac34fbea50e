/**
 * The keyword arguments of the final `save` call. Every call carries the path, the format, the
 * quality and the compression level; `icc_profile` and `subsampling` are added only on conditions.
 */
module SaveParams {
  import opened Wrappers
  import opened Errors
  import opened PyInt
  import opened PurePath
  import opened Inputs
  import opened Subsampling

  /**
   * The arguments as a record. `iccProfile` is `None` when the key is absent, and `Some(v)` when it
   * is present with the value `v`, which is itself `None` when the source has no profile.
   */
  datatype Params = Params(
    fp: Path,
    format: string,
    quality: int,
    compressLevel: int,
    iccProfile: Option<Option<seq<bv8>>>,
    subsampling: Option<int>
  )

  /** Python's truth value of the subsampling result: `None` and `0` are false. */
  predicate Truthy(v: Option<int>) {
    v.Some? && v.value != 0
  }

  /**
   * The exception raised while the arguments are built: `int()` of the quality, then of the
   * compression level, then the subsampling option; `None` when all three are accepted.
   */
  function ParamsError(args: Args, image: SourceImage): Option<Error> {
    if ParseInt(args.quality).None? then Some(InvalidLiteral(args.quality))
    else if ParseInt(args.compression).None? then Some(InvalidLiteral(args.compression))
    else
      match ParseSubsampling(args.subsampling, image.format, image.nativeSampling)
      case Err(e) => Some(e)
      case Ok(_) => None
  }

  /** The subsampling entry: the resolved value, kept only when it is truthy. */
  function KeptSubsampling(resolved: Option<int>): Option<int> {
    if Truthy(resolved) then resolved else None
  }

  /** The arguments the save call receives when none of the options fails to parse. */
  function ParamsOf(fp: Path, format: string, args: Args, image: SourceImage): Params
    requires ParamsError(args, image).None?
  {
    Params(fp, format, ParseInt(args.quality).value, ParseInt(args.compression).value,
           if args.excludeIcc then None else Some(image.iccProfile),
           KeptSubsampling(ParseSubsampling(args.subsampling, image.format, image.nativeSampling).value))
  }

  /** The arguments, or the exception raised while building them. */
  function ParamsFor(fp: Path, format: string, args: Args, image: SourceImage): Result<Params, Error> {
    if ParamsError(args, image).Some? then Err(ParamsError(args, image).value)
    else Ok(ParamsOf(fp, format, args, image))
  }

  /** Builds the arguments step by step: the four fixed keys, then the ICC profile, then the subsampling. */
  method AssembleParams(fp: Path, format: string, args: Args, image: SourceImage) returns (r: Result<Params, Error>)
    ensures r == ParamsFor(fp, format, args, image)
  {
    var quality := ParseInt(args.quality);
    if quality.None? {
      return Err(InvalidLiteral(args.quality));
    }
    var compressLevel := ParseInt(args.compression);
    if compressLevel.None? {
      return Err(InvalidLiteral(args.compression));
    }
    var params := Params(fp, format, quality.value, compressLevel.value, None, None);
    if !args.excludeIcc {
      params := params.(iccProfile := Some(image.iccProfile));
    }
    var subsampling := ParseSubsampling(args.subsampling, image.format, image.nativeSampling);
    if subsampling.Err? {
      return Err(subsampling.error);
    }
    if Truthy(subsampling.value) {
      params := params.(subsampling := subsampling.value);
    }
    return Ok(params);
  }

  /**
   * The arguments are built unless the quality, the compression level or the subsampling option
   * fails to parse, and they then carry the path, the format and the two numbers whatever the format.
   */
  lemma ParamsFixedKeys(fp: Path, format: string, args: Args, image: SourceImage)
    ensures ParamsError(args, image).None?
        <==> ParseInt(args.quality).Some? && ParseInt(args.compression).Some?
             && ParseSubsampling(args.subsampling, image.format, image.nativeSampling).Ok?
    ensures ParamsError(args, image).None? ==>
      var p := ParamsOf(fp, format, args, image);
      p.fp == fp && p.format == format
      && Some(p.quality) == ParseInt(args.quality) && Some(p.compressLevel) == ParseInt(args.compression)
  {
  }

  /** The key `icc_profile` is present exactly when `--exclude-icc` is off, holding the source's profile, which may be `None`. */
  lemma IccPresentIff(fp: Path, format: string, args: Args, image: SourceImage)
    requires ParamsError(args, image).None?
    ensures var p := ParamsOf(fp, format, args, image);
      (p.iccProfile.Some? <==> !args.excludeIcc) && (p.iccProfile.Some? ==> p.iccProfile.value == image.iccProfile)
  {
  }

  /** The key `subsampling` is present exactly when the resolved subsampling is truthy, holding that value. */
  lemma SubsamplingPresentIff(fp: Path, format: string, args: Args, image: SourceImage)
    requires ParamsError(args, image).None?
    ensures var p := ParamsOf(fp, format, args, image);
      var resolved := ParseSubsampling(args.subsampling, image.format, image.nativeSampling).value;
      (p.subsampling.Some? <==> Truthy(resolved)) && (p.subsampling.Some? ==> p.subsampling == resolved)
  {
  }

  /** A subsampling of 0 (4:4:4) is never passed on, whether it was asked for or kept from the source. */
  lemma ZeroSubsamplingDropped(fp: Path, format: string, args: Args, image: SourceImage)
    requires ParamsError(args, image).None?
    ensures ParamsOf(fp, format, args, image).subsampling != Some(0)
  {
  }

  /** `--subsampling 0` leaves the subsampling to the library. */
  lemma ExplicitZeroDropped(fp: Path, format: string, args: Args, image: SourceImage)
    requires args.subsampling == "0"
    requires ParseInt(args.quality).Some? && ParseInt(args.compression).Some?
    ensures ParamsError(args, image).None?
    ensures ParamsOf(fp, format, args, image).subsampling == None
  {
    ExplicitNumber(0, image.format, image.nativeSampling);
    assert Decimal(0) == "0";
  }

  /** The arguments depend on no option other than the quality, the compression, the subsampling and `--exclude-icc`. */
  lemma ParamsReadOnlySaveOptions(fp: Path, format: string, a: Args, b: Args, image: SourceImage)
    requires a.quality == b.quality && a.compression == b.compression
    requires a.subsampling == b.subsampling && a.excludeIcc == b.excludeIcc
    ensures ParamsError(a, image) == ParamsError(b, image)
    ensures ParamsError(a, image).None? ==> ParamsOf(fp, format, a, image) == ParamsOf(fp, format, b, image)
  {
  }

  /**
   * Nothing looks at the target format: whether the arguments can be built does not depend on it,
   * and the subsampling entry is the same for every format.
   */
  lemma SubsamplingIgnoresTarget(fp: Path, format1: string, format2: string, args: Args, image: SourceImage)
    requires ParamsError(args, image).None?
    ensures ParamsOf(fp, format1, args, image).subsampling == ParamsOf(fp, format2, args, image).subsampling
  {
  }

  /** `keep` on a JPEG source passes the source's own sampling on, unless it is 0. */
  lemma KeepOnJpegSource(fp: Path, format: string, args: Args, image: SourceImage)
    requires args.subsampling == "keep" && image.format == "JPEG"
    requires ParseInt(args.quality).Some? && ParseInt(args.compression).Some?
    ensures ParamsError(args, image).None?
    ensures ParamsOf(fp, format, args, image).subsampling
            == if image.nativeSampling != 0 then Some(image.nativeSampling) else None
  {
    KeepFollowsSource(image.format, image.nativeSampling);
  }

  /**
   * `keep` on a JPEG source whose sampling is 2 (4:2:0), saved as PNG: the PNG save still
   * receives `subsampling=2`.
   */
  lemma KeepReachesPng(fp: Path, args: Args, image: SourceImage)
    requires args.subsampling == "keep" && image.format == "JPEG" && image.nativeSampling == 2
    requires ParseInt(args.quality).Some? && ParseInt(args.compression).Some?
    ensures ParamsError(args, image).None?
    ensures ParamsOf(fp, "PNG", args, image).subsampling == Some(2)
  {
  }
}
