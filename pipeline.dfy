/**
 * The loop of `main`: for every input file, open it, rescale it, fix its colour mode, work out the
 * output path and the save arguments, and save it unless this is a dry run.
 */
module Pipeline {
  import opened Wrappers
  import opened Errors
  import opened PyInt
  import opened PurePath
  import opened Inputs
  import opened Naming
  import opened Subsampling
  import opened SaveParams

  /** An input file name and what `Image.open` makes of it: `None` when it raises. */
  datatype SourceFile = SourceFile(filename: string, image: Option<SourceImage>)

  /**
   * What the script does with one file: where it saves it, the percentage it rescales by (`None`
   * when `--scale` is empty and no resize happens), whether it converts to RGB, the save
   * arguments, and whether the save call is made.
   */
  datatype FilePlan = FilePlan(
    output: Path,
    scalePercent: Option<int>,
    toRgb: bool,
    params: Params,
    written: bool
  )

  /**
   * The files the loop visits, in `chain`'s order: the matches of the glob pattern (nothing when no
   * pattern is given), then the explicit file arguments. A file named both ways is visited twice.
   */
  function InputFiles(glob: Option<string>, globMatches: seq<SourceFile>, files: seq<SourceFile>): seq<SourceFile> {
    (if glob.Some? then globMatches else []) + files
  }

  /** The format the file is saved in. */
  function TargetFormat(image: SourceImage, args: Args): string {
    ResolveFormat(args.format, image.format)
  }

  /** The path the file is saved to. */
  function TargetPath(filename: string, image: SourceImage, args: Args): Path {
    var path := Parse(filename);
    OutputPath(path, args.directory, args.prefix, args.suffix, ChooseExtension(TargetFormat(image, args), path))
  }

  /**
   * The exception that processing the file raises, in the order the script meets them: the file
   * does not open; `--scale` is not an integer; the RGB conversion or the save needs `new_image`,
   * which an empty `--scale` leaves unassigned; an option of the save call does not parse.
   */
  function FileError(file: SourceFile, args: Args): Option<Error> {
    if file.image.None? then Some(CannotOpen(file.filename))
    else
      var image := file.image.value;
      var scaled := args.scale != "";
      if scaled && ParseInt(args.scale).None? then Some(InvalidLiteral(args.scale))
      else if NeedsRgbConversion(TargetFormat(image, args), image.mode) && !scaled then Some(UnboundNewImage)
      else if ParamsError(args, image).Some? then ParamsError(args, image)
      else if !args.dryRun && !scaled then Some(UnboundNewImage)
      else None
  }

  /** What the script does with a file that raises nothing. */
  function PlanOf(file: SourceFile, args: Args): FilePlan
    requires FileError(file, args).None?
  {
    var image := file.image.value;
    var output := TargetPath(file.filename, image, args);
    var format := TargetFormat(image, args);
    FilePlan(output, if args.scale != "" then ParseInt(args.scale) else None,
             NeedsRgbConversion(format, image.mode), ParamsOf(output, format, args, image), !args.dryRun)
  }

  /** The outcome of processing one file, or the exception that stops the run there. */
  function PlanFile(file: SourceFile, args: Args): Result<FilePlan, Error> {
    if FileError(file, args).Some? then Err(FileError(file, args).value) else Ok(PlanOf(file, args))
  }

  /** The extension and the output path, in the order the script works them out. */
  method PlaceOutput(path: Path, format: string, args: Args) returns (output: Path)
    ensures output == OutputPath(path, args.directory, args.prefix, args.suffix, ChooseExtension(format, path))
  {
    var extension := Suffix(Name(path));
    if format == "JPEG" {
      extension := ".jpg";
    }
    if format == "PNG" {
      extension := ".png";
    }
    assert extension == ChooseExtension(format, path);

    var fileName := OrEmpty(args.prefix) + Stem(Name(path)) + OrEmpty(args.suffix) + extension;
    if Given(args.directory) {
      output := Join(Parse(args.directory.value), fileName);
    } else {
      output := Join(Parent(path), fileName);
    }
  }

  // ----- The exceptions, in the order the body meets them -----

  /** A file that does not open stops the run. */
  lemma UnopenedFileFails(file: SourceFile, args: Args)
    requires file.image.None?
    ensures PlanFile(file, args) == Err(CannotOpen(file.filename))
  {
  }

  /** A `--scale` that is not an integer stops the run at the first file that opens. */
  lemma BadScaleFails(file: SourceFile, args: Args)
    requires file.image.Some? && args.scale != "" && ParseInt(args.scale).None?
    ensures PlanFile(file, args) == Err(InvalidLiteral(args.scale))
  {
  }

  /** Without a resize, the RGB conversion reads the unbound `new_image`. */
  lemma ConversionNeedsResize(file: SourceFile, args: Args)
    requires file.image.Some? && args.scale == ""
    requires NeedsRgbConversion(TargetFormat(file.image.value, args), file.image.value.mode)
    ensures PlanFile(file, args) == Err(UnboundNewImage)
  {
  }

  /** Past the scale and the conversion, a save option that does not parse raises its exception. */
  lemma BadSaveOptionFails(file: SourceFile, args: Args)
    requires file.image.Some? && (args.scale != "" ==> ParseInt(args.scale).Some?)
    requires args.scale == "" ==> !NeedsRgbConversion(TargetFormat(file.image.value, args), file.image.value.mode)
    requires ParamsError(args, file.image.value).Some?
    ensures PlanFile(file, args) == Err(ParamsError(args, file.image.value).value)
  {
  }

  /** Past everything else, the save itself reads `new_image`, which only a resize binds. */
  lemma SaveNeedsResize(file: SourceFile, args: Args)
    requires file.image.Some? && args.scale == "" && !args.dryRun
    requires !NeedsRgbConversion(TargetFormat(file.image.value, args), file.image.value.mode)
    requires ParamsError(args, file.image.value).None?
    ensures PlanFile(file, args) == Err(UnboundNewImage)
  {
  }

  /**
   * A file that opens, whose scale is numeric (or empty on a dry run that converts nothing) and
   * whose save options parse, raises nothing. The float overflows of `int(p) / 100` and of the
   * scaled width and height are not part of this model.
   */
  lemma RaisesNothing(file: SourceFile, args: Args)
    requires file.image.Some? && (args.scale != "" ==> ParseInt(args.scale).Some?)
    requires args.scale == "" ==> args.dryRun && !NeedsRgbConversion(TargetFormat(file.image.value, args), file.image.value.mode)
    requires ParamsError(args, file.image.value).None?
    ensures FileError(file, args).None?
    ensures PlanFile(file, args) == Ok(PlanOf(file, args))
  {
  }

  /** The body of the loop, in the order the script runs it. */
  method ProcessFile(file: SourceFile, args: Args) returns (r: Result<FilePlan, Error>)
    ensures r == PlanFile(file, args)
  {
    if file.image.None? {
      UnopenedFileFails(file, args);
      return Err(CannotOpen(file.filename));
    }
    var image := file.image.value;
    var path := Parse(file.filename);

    var newImageBound := false;
    var scalePercent: Option<int> := None;
    if args.scale != "" {
      scalePercent := ParseInt(args.scale);
      if scalePercent.None? {
        BadScaleFails(file, args);
        return Err(InvalidLiteral(args.scale));
      }
      newImageBound := true;
    }

    var format: string;
    if Given(args.format) {
      format := Upper(args.format.value);
    } else {
      format := image.format;
    }
    assert format == TargetFormat(image, args);

    var toRgb := false;
    if format == "JPEG" && (image.mode == "RGBA" || image.mode == "P") {
      if !newImageBound {
        ConversionNeedsResize(file, args);
        return Err(UnboundNewImage);
      }
      toRgb := true;
    }
    assert toRgb == NeedsRgbConversion(format, image.mode);

    var output := PlaceOutput(path, format, args);
    assert output == TargetPath(file.filename, image, args);

    var params := AssembleParams(output, format, args, image);
    if params.Err? {
      BadSaveOptionFails(file, args);
      return Err(params.error);
    }

    if !args.dryRun && !newImageBound {
      SaveNeedsResize(file, args);
      return Err(UnboundNewImage);
    }
    RaisesNothing(file, args);
    assert params.value == ParamsOf(output, format, args, image);
    return Ok(FilePlan(output, scalePercent, toRgb, params.value, !args.dryRun));
  }

  /**
   * The loop over the input files. There is no exception handling, so the first file that fails
   * ends the run: the files before it have been processed, the ones after it are not visited.
   */
  method ProcessAll(files: seq<SourceFile>, args: Args) returns (plans: seq<FilePlan>, failure: Option<Error>)
    ensures |plans| <= |files|
    ensures forall i :: 0 <= i < |plans| ==> PlanFile(files[i], args) == Ok(plans[i])
    ensures failure.None? ==> |plans| == |files|
    ensures failure.Some? ==> |plans| < |files| && PlanFile(files[|plans|], args) == Err(failure.value)
  {
    plans, failure := [], None;
    var i := 0;
    while i < |files|
      invariant i == |plans| <= |files|
      invariant forall k :: 0 <= k < i ==> PlanFile(files[k], args) == Ok(plans[k])
    {
      var r := ProcessFile(files[i], args);
      if r.Err? {
        failure := Some(r.error);
        return;
      }
      ExtendPlans(files, args, plans, r.value);
      plans := plans + [r.value];
      i := i + 1;
    }
  }

  /**
   * `main`'s loop over `chain(iterate_glob(pattern), files)`: the glob's matches first, then the
   * explicit files. The opened files are inputs: the matches the file system enumerates for the
   * pattern, and the explicit arguments, each with what `Image.open` makes of it.
   */
  method ProcessInputs(glob: Option<string>, globMatches: seq<SourceFile>, files: seq<SourceFile>, args: Args)
    returns (plans: seq<FilePlan>, failure: Option<Error>)
    ensures var order := InputFiles(glob, globMatches, files);
      && |plans| <= |order|
      && (forall i :: 0 <= i < |plans| ==> PlanFile(order[i], args) == Ok(plans[i]))
      && (failure.None? ==> |plans| == |order|)
      && (failure.Some? ==> |plans| < |order| && PlanFile(order[|plans|], args) == Err(failure.value))
  {
    plans, failure := ProcessAll(InputFiles(glob, globMatches, files), args);
  }

  /**
   * Results for a prefix of `chain(matches, files)` are results for the matches, in their order,
   * and then for the explicit files, in theirs. `outcome` stands for processing one file.
   */
  lemma ChainOrder<F, P, E>(matches: seq<F>, files: seq<F>, outcome: F -> Result<P, E>, plans: seq<P>)
    requires |plans| <= |matches| + |files|
    requires forall i :: 0 <= i < |plans| ==> outcome((matches + files)[i]) == Ok(plans[i])
    ensures forall i :: 0 <= i < |matches| && i < |plans| ==> outcome(matches[i]) == Ok(plans[i])
    ensures forall j :: 0 <= j < |files| && |matches| + j < |plans| ==> outcome(files[j]) == Ok(plans[|matches| + j])
  {
    forall i | 0 <= i < |matches| && i < |plans|
      ensures outcome(matches[i]) == Ok(plans[i])
    {
      assert (matches + files)[i] == matches[i];
    }
    forall j | 0 <= j < |files| && |matches| + j < |plans|
      ensures outcome(files[j]) == Ok(plans[|matches| + j])
    {
      assert (matches + files)[|matches| + j] == files[j];
    }
  }

  /** One more processed file extends the processed prefix by its plan. */
  lemma ExtendPlans(files: seq<SourceFile>, args: Args, plans: seq<FilePlan>, plan: FilePlan)
    requires |plans| < |files|
    requires forall k :: 0 <= k < |plans| ==> PlanFile(files[k], args) == Ok(plans[k])
    requires PlanFile(files[|plans|], args) == Ok(plan)
    ensures forall k :: 0 <= k < |plans| + 1 ==> PlanFile(files[k], args) == Ok((plans + [plan])[k])
  {
    forall k | 0 <= k < |plans| + 1
      ensures PlanFile(files[k], args) == Ok((plans + [plan])[k])
    {
      if k < |plans| {
        assert (plans + [plan])[k] == plans[k];
      }
    }
  }

  // ----- Properties of one file's plan -----

  /** A plan saves to the target path in the target format, with the arguments built for them. */
  lemma PlanTargets(file: SourceFile, args: Args)
    requires FileError(file, args).None?
    ensures var plan := PlanOf(file, args);
      var image := file.image.value;
      && plan.output == TargetPath(file.filename, image, args)
      && plan.params.format == TargetFormat(image, args)
      && plan.params.fp == plan.output
      && ParamsFor(plan.output, plan.params.format, args, image) == Ok(plan.params)
      && plan.toRgb == NeedsRgbConversion(plan.params.format, image.mode)
  {
  }

  /**
   * The output name ends in `.jpg` for JPEG, in `.png` for PNG, and otherwise in the input's own
   * suffix.
   */
  lemma TargetExtension(filename: string, image: SourceImage, args: Args)
    ensures var format := TargetFormat(image, args);
      var name := Name(TargetPath(filename, image, args));
      && (format == "JPEG" ==> EndsWith(name, ".jpg"))
      && (format == "PNG" ==> EndsWith(name, ".png"))
      && (format != "JPEG" && format != "PNG" ==> EndsWith(name, Suffix(Name(Parse(filename)))))
  {
    var path := Parse(filename);
    var format := TargetFormat(image, args);
    var ext := ChooseExtension(format, path);
    ExtensionShape(format, path);
    if ext != "" {
      OutputNameEndsWithExtension(path, args.directory, args.prefix, args.suffix, ext);
    } else {
      var name := Name(TargetPath(filename, image, args));
      assert name[|name|..] == ext;
    }
  }

  /**
   * With no directory, no prefix and no suffix, and a format that keeps the input's extension,
   * the file is saved over itself.
   */
  lemma TargetOverwrite(filename: string, image: SourceImage, args: Args)
    requires !Given(args.directory) && OrEmpty(args.prefix) == "" && OrEmpty(args.suffix) == ""
    requires ChooseExtension(TargetFormat(image, args), Parse(filename)) == Suffix(Name(Parse(filename)))
    ensures TargetPath(filename, image, args) == Parse(filename)
  {
    OutputPathOverwrite(Parse(filename), args.directory, args.prefix, args.suffix);
  }

  /**
   * The overwrite the usage text promises without `--directory` holds for a JPEG or PNG target only
   * when the input's suffix is spelled exactly `.jpg` or `.png`: `photo.jpeg` is saved to a second
   * file, `photo.jpg`, on any file system, and on a case-sensitive file system `IMG.JPG` or `a.PNG`
   * is saved to a second file, `IMG.jpg` or `a.png`.
   */
  lemma RespelledSuffixNotOverwritten(stem: string, inExt: string, image: SourceImage, args: Args)
    requires IsComponent(stem) && IsExtension(inExt)
    requires !Given(args.directory) && OrEmpty(args.prefix) == "" && OrEmpty(args.suffix) == ""
    requires TargetFormat(image, args) == "JPEG" || TargetFormat(image, args) == "PNG"
    ensures var ext := if TargetFormat(image, args) == "JPEG" then ".jpg" else ".png";
      && TargetPath(stem + inExt, image, args) == Path(false, [stem + ext])
      && (TargetPath(stem + inExt, image, args) == Parse(stem + inExt) <==> inExt == ext)
  {
    var ext := if TargetFormat(image, args) == "JPEG" then ".jpg" else ".png";
    assert ChooseExtension(TargetFormat(image, args), Parse(stem + inExt)) == ext;
    RenamedInPlace(args.directory, args.prefix, args.suffix, stem, inExt, ext);
    ComponentWithExtension(stem, inExt);
    if stem + ext == stem + inExt {
      assert (stem + ext)[|stem|..] == ext;
      assert (stem + inExt)[|stem|..] == inExt;
    }
  }

  /**
   * When the prefix and the suffix hold no `/`, the output lies directly in `--directory`, or
   * beside the input when there is none, and is named `prefix + stem + suffix + extension`.
   */
  lemma TargetPlacement(filename: string, image: SourceImage, args: Args)
    requires Parse(filename).parts != []
    requires '/' !in OrEmpty(args.prefix) && '/' !in OrEmpty(args.suffix)
    ensures var output := TargetPath(filename, image, args);
      var path := Parse(filename);
      && Parent(output) == (if Given(args.directory) then Parse(args.directory.value) else Parent(path))
      && Name(output) == OrEmpty(args.prefix) + Stem(Name(path)) + OrEmpty(args.suffix)
                         + ChooseExtension(TargetFormat(image, args), path)
  {
    var path := Parse(filename);
    var format := TargetFormat(image, args);
    FileNameIsComponent(path, format, args.prefix, args.suffix);
    OutputPathPlacement(path, args.directory, args.prefix, args.suffix, ChooseExtension(format, path));
  }

  /**
   * The image is converted to RGB exactly when the target is JPEG and the source mode is RGBA or
   * palette; a converted image always goes to a `.jpg` file.
   */
  lemma PlanConversion(file: SourceFile, args: Args)
    requires FileError(file, args).None?
    ensures var plan := PlanOf(file, args);
      var mode := file.image.value.mode;
      && (plan.toRgb <==> plan.params.format == "JPEG" && (mode == "RGBA" || mode == "P"))
      && (plan.toRgb ==> EndsWith(Name(plan.output), ".jpg"))
  {
    PlanTargets(file, args);
    TargetExtension(file.filename, file.image.value, args);
  }

  /** A dry run computes the same plan and only leaves out the save call. */
  lemma DryRunOnlySkipsSave(file: SourceFile, args: Args)
    requires FileError(file, args.(dryRun := false)).None?
    ensures FileError(file, args.(dryRun := true)).None?
    ensures PlanOf(file, args.(dryRun := true)) == PlanOf(file, args.(dryRun := false)).(written := false)
    ensures PlanOf(file, args.(dryRun := false)).written
  {
    var wet, dry := args.(dryRun := false), args.(dryRun := true);
    var image := file.image.value;
    var format := TargetFormat(image, wet);
    var output := TargetPath(file.filename, image, wet);
    assert TargetFormat(image, dry) == format;
    assert TargetPath(file.filename, image, dry) == output;
    ParamsReadOnlySaveOptions(output, format, wet, dry, image);
    assert FileError(file, dry).None?;
    assert PlanOf(file, dry).params == PlanOf(file, wet).params;
  }

  /** With an empty `--scale` no resized image is ever made, so unless this is a dry run every file fails. */
  lemma EmptyScaleFails(file: SourceFile, args: Args)
    requires args.scale == "" && !args.dryRun
    ensures FileError(file, args).Some?
  {
  }

  /** A numeric `--scale` and options that parse: the plan is made of the target path, format and arguments. */
  lemma PlanFromParts(file: SourceFile, args: Args, output: Path, format: string, percent: int)
    requires file.image.Some? && args.scale != "" && ParseInt(args.scale) == Some(percent)
    requires TargetPath(file.filename, file.image.value, args) == output
    requires TargetFormat(file.image.value, args) == format
    requires ParamsError(args, file.image.value).None?
    ensures FileError(file, args).None?
    ensures PlanFile(file, args)
         == Ok(FilePlan(output, Some(percent), NeedsRgbConversion(format, file.image.value.mode),
                        ParamsOf(output, format, args, file.image.value), !args.dryRun))
  {
    RaisesNothing(file, args);
  }

  // ----- Worked examples -----

  /** Where the resized file of the next example goes. */
  lemma InPlacePath(stem: string, image: SourceImage, args: Args)
    requires IsComponent(stem)
    requires args.directory == None && args.prefix == None && args.suffix == None
    requires TargetFormat(image, args) == "JPEG"
    ensures TargetPath(stem + ".jpg", image, args) == Path(false, [stem + ".jpg"])
  {
    ParseComponent(stem + ".jpg");
    SplitName(stem, ".jpg");
    TargetOverwrite(stem + ".jpg", image, args);
  }

  /**
   * An RGB JPEG `<stem>.jpg` resized with numeric `--scale`, `--quality` and `--compression` and
   * every other option at its default: it is rescaled and saved over itself as JPEG, with its own
   * profile and its own subsampling unless that is 0.
   */
  lemma ScenarioResizeInPlace(stem: string, percent: int, quality: int, level: int, icc: Option<seq<bv8>>, sampling: int)
    requires IsComponent(stem)
    ensures var args := Defaults.(scale := Decimal(percent), quality := Decimal(quality), compression := Decimal(level));
      var file := SourceFile(stem + ".jpg", Some(SourceImage("JPEG", "RGB", icc, sampling)));
      var output := Path(false, [stem + ".jpg"]);
      PlanFile(file, args)
        == Ok(FilePlan(output, Some(percent), false,
                       Params(output, "JPEG", quality, level, Some(icc), if sampling != 0 then Some(sampling) else None),
                       true))
  {
    var args := Defaults.(scale := Decimal(percent), quality := Decimal(quality), compression := Decimal(level));
    var image := SourceImage("JPEG", "RGB", icc, sampling);
    var file := SourceFile(stem + ".jpg", Some(image));
    var output := Path(false, [stem + ".jpg"]);
    assert TargetFormat(image, args) == "JPEG";
    InPlacePath(stem, image, args);
    DecimalRoundTrip(percent);
    DecimalRoundTrip(quality);
    DecimalRoundTrip(level);
    KeepOnJpegSource(output, "JPEG", args, image);
    PlanFromParts(file, args, output, "JPEG", percent);
  }

  /** Where the converted file of the next example goes. */
  lemma ConvertedPath(directory: string, prefix: string, stem: string, image: SourceImage, args: Args)
    requires IsComponent(directory) && IsComponent(stem) && '/' !in prefix
    requires args.directory == Some(directory) && args.prefix == Some(prefix) && args.suffix == None
    requires TargetFormat(image, args) == "JPEG"
    ensures TargetPath(stem + ".png", image, args) == Path(false, [directory, prefix + stem + ".jpg"])
  {
    RenamedInDirectory(directory, prefix, stem, ".png", ".jpg");
  }

  /**
   * An RGBA PNG `<stem>.png` converted with `--format jpeg`, a `--directory` and a `--prefix`: it
   * is converted to RGB, saved as `<directory>/<prefix><stem>.jpg`, and gets no subsampling
   * (`keep` on a PNG source).
   */
  lemma ScenarioConvertToJpeg(directory: string, prefix: string, stem: string, percent: int, quality: int, level: int,
                              icc: Option<seq<bv8>>, sampling: int)
    requires IsComponent(directory) && IsComponent(stem) && '/' !in prefix
    ensures var args := Defaults.(scale := Decimal(percent), format := Some("jpeg"), directory := Some(directory),
                                  prefix := Some(prefix), quality := Decimal(quality), compression := Decimal(level));
      var file := SourceFile(stem + ".png", Some(SourceImage("PNG", "RGBA", icc, sampling)));
      var output := Path(false, [directory, prefix + stem + ".jpg"]);
      PlanFile(file, args)
        == Ok(FilePlan(output, Some(percent), true, Params(output, "JPEG", quality, level, Some(icc), None), true))
  {
    var args := Defaults.(scale := Decimal(percent), format := Some("jpeg"), directory := Some(directory),
                          prefix := Some(prefix), quality := Decimal(quality), compression := Decimal(level));
    var image := SourceImage("PNG", "RGBA", icc, sampling);
    var filename := stem + ".png";
    var file := SourceFile(filename, Some(image));
    assert TargetFormat(image, args) == "JPEG" by {
      ResolveFormatExamples("PNG");
    }
    ConvertedPath(directory, prefix, stem, image, args);
    DecimalRoundTrip(percent);
    DecimalRoundTrip(quality);
    DecimalRoundTrip(level);
    KeepFollowsSource(image.format, image.nativeSampling);
    assert ParamsError(args, image).None?;
    PlanFromParts(file, args, Path(false, [directory, prefix + stem + ".jpg"]), "JPEG", percent);
  }
}
