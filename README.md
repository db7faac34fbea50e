# Image Resize: a Dafny model of its decision rules

`resize.py` is a command-line script. It rescales image files with PIL and saves them:

- in a chosen format (`--format`);
- under a chosen directory, prefix and suffix;
- with JPEG quality, PNG compression level, ICC profile and chroma subsampling options.

This project models what the script decides for each file, once docopt has parsed the options and PIL has opened the image:

- the subsampling it asks for (`parse_subsampling`);
- the target format;
- whether the image is converted to RGB;
- the output extension and path;
- the keyword arguments of the `save` call;
- which step raises an exception and so ends the run;
- the loop over all input files.

The modules follow the script's structure:

| module | file | what it holds |
|---|---|---|
| `Wrappers` | `wrappers.dfy` | `Option` and `Result` |
| `Errors` | `errors.dfy` | the exceptions that end a run: the file does not open, `int()` rejects a string, `new_image` is unbound |
| `PyInt` | `pyint.dfy` | Python's `int(text)` and `str(n)` on ASCII text, with the round trip `int(str(n)) == n` (no limit on the number of digits) |
| `PurePath` | `purepath.dfy` | the part of `pathlib.PurePosixPath` the script uses: parsing, `name`, `stem`, `suffix`, `parent`, `/`, `str()` |
| `Inputs` | `inputs.dfy` | the parsed options (`Args`, with the usage text's defaults) and the opened image's properties (`SourceImage`) |
| `Subsampling` | `subsampling.dfy` | `parse_subsampling` |
| `Naming` | `naming.dfy` | format resolution, the RGB decision, the extension and the output path |
| `SaveParams` | `saveparams.dfy` | the `params` dict, built step by step by a method and specified by a function |
| `Pipeline` | `pipeline.dfy` | the body of the loop as a method (`ProcessFile`), the loop over a list of files (`ProcessAll`), `main`'s loop over the glob matches and then the explicit files (`ProcessInputs`), the function they are proved against (`PlanFile`), and worked examples |

The script is mixed in style, and so is the model:

- `parse_subsampling` and the naming rules are pure functions.
- The three pieces of `main` that rebind variables are methods proved against those functions:
  - the build-up of `params` (`SaveParams.AssembleParams`);
  - the rebinding of `extension` (`Pipeline.PlaceOutput`);
  - the loop (`Pipeline.ProcessFile`, `Pipeline.ProcessAll`, `Pipeline.ProcessInputs`).

The per-file outcome is a `FilePlan` holding:

- the output path;
- the scale percentage;
- whether the image is converted to RGB;
- the save arguments;
- whether `save` is called (it is not on a dry run).

Where the usage text and the code disagree, the model follows the code:

- **Subsampling reaches every format.** The usage text calls `--subsampling` a JPEG option, but nothing restricts it to JPEG targets. `keep` on a JPEG source passes the source's sampling even to a PNG save.
- **An explicit `0` is dropped.** `--subsampling 0` (4:4:4) is never passed, because `if subsampling:` treats 0 as false. The library then chooses the subsampling.
- **`--format` takes any string.** Any value is upper-cased (`gif` gives `GIF`, `jpg` gives `JPG`). Only `JPEG` and `PNG` change the extension, so `--format jpg` keeps the input's suffix. PIL's `save` then raises `KeyError('JPG')`, so, unless this is a dry run, that file is never written (the error is one of the PIL errors left out below).
- **The overwrite the usage text promises can fail.** Line 13 says that without `--directory` output files are overwritten. A JPEG or PNG target gets the extension `.jpg` or `.png` whatever the input's suffix was, so `photo.jpeg` is saved to a second file, `photo.jpg`, on any file system, and on a case-sensitive file system `IMG.JPG` or `a.PNG` is saved to a second file, `IMG.jpg` or `a.png` (`Pipeline.RespelledSuffixNotOverwritten`).
- **No error handling.** Nothing catches exceptions, so the first file that fails ends the run.
- **`icc_profile` may be `None`.** The key is present whenever `--exclude-icc` is off, and its value is then `None` for a source without a profile.
- **An empty `--scale` leaves `new_image` unbound.** The RGB conversion, or the save when this is not a dry run, then raises `UnboundLocalError`.

## Model

| member | source | states |
|---|---|---|
| Subsampling.AutoIsNone | resize.py:47-48 | `auto` gives no subsampling, whatever the source format and sampling |
| Subsampling.KeepFollowsSource | resize.py:49-52 | `keep` gives the native sampling for a JPEG source and no subsampling for any other source |
| Subsampling.ExplicitNumber | resize.py:53 | the decimal text of any integer `n` resolves to `n`, whatever the source's format or sampling |
| Subsampling.ExplicitIgnoresSource | resize.py:46-53 | an option other than `auto` and `keep` gives the same outcome for every source image |
| Subsampling.SubsamplingFailsIff | resize.py:46-53 | the call fails exactly when the option is not `auto`, not `keep` and not an integer literal; the failure is `int()`'s on that option |
| Subsampling.RatioRejected | resize.py:20-21 | the ratio spelling `4:2:0` is rejected: only the numbers stand for ratios |
| PyInt.DecimalRoundTrip | resize.py:53 | `int(str(n)) == n` for every integer the model's `int()` reads; CPython's 4300-digit limit is not modelled |
| PyInt.ParseIntIgnoresSpace | resize.py:53 | space, tab, line feed, carriage return, vertical tab or form feed around a literal does not change what `int()` reads |
| PyInt.SeparatorRejected | resize.py:53 | a file separator (U+001C) before the digits is not skipped: `int()` of that text fails |
| PyInt.ParseIntLeadingZeros | resize.py:53 | leading zeros do not change the value |
| PyInt.ParseDigits | resize.py:103-104 | a string of digits is read as its decimal value |
| PyInt.ParseIntRejects | resize.py:66 | a character other than a digit, one of those six spacing characters or a sign anywhere in the text makes `int()` fail |
| Naming.ResolveFormatSource | resize.py:68-71 | a given `--format` decides the format, upper-cased (and upper-casing it again changes nothing); an absent or empty one leaves the source's format |
| Naming.ResolveFormatExamples | resize.py:68-71 | every string is upper-cased, not only `jpeg` and `png`; an empty `--format` counts as absent |
| Naming.UpperIdempotent | resize.py:69 | upper-casing twice is upper-casing once |
| Naming.ExtensionShape | resize.py:76-80 | the extension is empty or one dot-started component, and it is the input's suffix for every format but JPEG and PNG |
| Naming.JpgSpellingKeepsSuffix | resize.py:69-80 | `--format jpg` is not JPEG: the output keeps the input's suffix |
| Naming.OutputPathOverwrite | resize.py:89-95 | with no directory, prefix or suffix and the input's own extension, the output path is the input path |
| Naming.OutputNameEndsWithExtension | resize.py:82-95 | the output file name ends in the extension, whatever the prefix and suffix are |
| Naming.OutputPathPlacement | resize.py:82-95 | when the file name is one component, the output's parent is the base and its name is `prefix + stem + suffix + extension` |
| Naming.OutputInDirectory | resize.py:82-88 | under a one-component `--directory`, the output is that directory followed by the file name |
| Naming.RenamedInDirectory | resize.py:82-88 | `<stem><ext1>` saved with a directory and a prefix under extension `ext2` goes to `<directory>/<prefix><stem><ext2>` |
| Naming.RenamedInPlace | resize.py:89-95 | `<stem><ext1>` saved with no directory, prefix or suffix under extension `ext2` goes to `<stem><ext2>` beside it |
| Naming.FileNameIsComponent | resize.py:84-94 | the file name is one component when prefix and suffix hold no `/` and the input has a name |
| Naming.AbsolutePrefixIgnoresBase | resize.py:83-94 | a prefix starting with `/` makes `/` discard the base: the output lands outside `--directory` |
| PurePath.SplitName | resize.py:76 | `stem + ext`, with `ext` dot-started and holding no other dot, has that suffix and that stem |
| PurePath.StemSuffix | resize.py:76-95 | a name is its stem followed by its suffix |
| PurePath.JoinParentName | resize.py:90 | `path.parent / path.name == path` |
| PurePath.JoinComponent | resize.py:83-95 | joining one component appends it: the parent is the base and the name is the component |
| PurePath.RenderRoundTrip | resize.py:63 | parsing `str(p)` gives `p` back |
| SaveParams.AssembleParams | resize.py:100-112 | the dict built step by step equals the specification `ParamsFor`: the exception of the first option that fails to parse, or the arguments |
| SaveParams.ParamsFixedKeys | resize.py:100-105 | the arguments are built exactly when quality, compression level and subsampling parse; they then hold the path, the format and both numbers, whatever the format |
| SaveParams.IccPresentIff | resize.py:107-108 | `icc_profile` is present exactly when `--exclude-icc` is off, and it holds the source's profile, which may be `None` |
| SaveParams.SubsamplingPresentIff | resize.py:110-112 | `subsampling` is present exactly when the resolved value is truthy, and it holds that value |
| SaveParams.ZeroSubsamplingDropped | resize.py:111 | a subsampling of 0 is never passed |
| SaveParams.ExplicitZeroDropped | resize.py:110-112 | `--subsampling 0` leaves the choice to the library |
| SaveParams.SubsamplingIgnoresTarget | resize.py:110-112 | the subsampling entry is the same for every target format |
| SaveParams.KeepReachesPng | resize.py:110-112 | `keep` on a 4:2:0 JPEG source saved as PNG still passes `subsampling=2` |
| SaveParams.KeepOnJpegSource | resize.py:49-52 | `keep` on a JPEG source passes the source's sampling unless it is 0 |
| SaveParams.ParamsReadOnlySaveOptions | resize.py:100-112 | the arguments depend on no option other than quality, compression, subsampling and `--exclude-icc` |
| Pipeline.PlaceOutput | resize.py:76-95 | the extension rebound step by step and the joined path equal the specification `OutputPath` with `ChooseExtension` |
| Pipeline.ProcessFile | resize.py:62-118 | the loop body, run in the script's order, equals the specification `PlanFile`: the exception the file raises, or its plan |
| Pipeline.ProcessAll | resize.py:61-118 | the loop processes a prefix of the files, each with its own plan; it is all of them unless a file fails, and then that failure is the next file's exception |
| Pipeline.ProcessInputs | resize.py:61 | the files are visited in `chain`'s order, the glob's matches (none without a pattern) and then the explicit files: the i-th plan is the plan of the i-th file of that order; the run stops at the first file that fails, with that file's exception |
| Pipeline.ChainOrder | resize.py:61 | outcomes for a prefix of `chain(matches, files)` are the matches' outcomes, in their order, followed by the explicit files' outcomes, in theirs — a general fact about the order `chain` yields, stated for any per-file outcome |
| Pipeline.UnopenedFileFails | resize.py:62 | a file that does not open stops the run with that file's name |
| Pipeline.BadScaleFails | resize.py:65-66 | a non-empty, non-integer `--scale` stops the run |
| Pipeline.ConversionNeedsResize | resize.py:65-74 | with an empty `--scale`, an image that needs RGB conversion reads the unbound `new_image` |
| Pipeline.BadSaveOptionFails | resize.py:100-110 | a quality, compression or subsampling that does not parse raises its `int()` error |
| Pipeline.SaveNeedsResize | resize.py:65-118 | with an empty `--scale` and no dry run, the save reads the unbound `new_image` |
| Pipeline.EmptyScaleFails | resize.py:65-118 | with an empty `--scale` every file fails unless this is a dry run |
| Pipeline.RaisesNothing | resize.py:61-118 | a file that opens, whose scale is numeric (or empty on a dry run that converts nothing) and whose save options parse, raises nothing (float overflow of the scale aside, see "## Left out") |
| Pipeline.TargetExtension | resize.py:76-95 | the output name ends in `.jpg` for JPEG, `.png` for PNG, and otherwise in the input's suffix |
| Pipeline.TargetOverwrite | resize.py:13 | with no directory, prefix or suffix and a format that keeps the extension, the file is saved over itself |
| Pipeline.RespelledSuffixNotOverwritten | resize.py:76-95 | without directory, prefix or suffix, a JPEG or PNG target is saved to `<stem>.jpg` or `<stem>.png`, which is the input itself exactly when the input's suffix is spelled that way |
| Pipeline.TargetPlacement | resize.py:82-95 | the output lies in `--directory`, or beside the input, and is named `prefix + stem + suffix + extension` |
| Pipeline.PlanConversion | resize.py:73-74 | RGB conversion happens exactly for a JPEG target with an RGBA or palette source, and a converted image always goes to a `.jpg` file |
| Pipeline.DryRunOnlySkipsSave | resize.py:117-118 | a dry run computes the same plan and leaves out only the save call |
| Pipeline.ScenarioResizeInPlace | resize.py:61-118 | an RGB `<stem>.jpg` with only numeric options is rescaled and saved over itself as JPEG, with its own profile and its own sampling unless that is 0 |
| Pipeline.ScenarioConvertToJpeg | resize.py:61-118 | an RGBA `<stem>.png` with `--format jpeg`, a directory and a prefix is converted to RGB and saved as `<directory>/<prefix><stem>.jpg` with no subsampling |

## Left out

- **Argument parsing and output.** The model leaves out parsing the command line with docopt, and the `--debug` and `--verbose` printing. The options arrive as an `Args` value.
- **Glob enumeration.** The files `glob.iglob` enumerates for the pattern, and their order, come from the file system. They are an input sequence of `Pipeline.ProcessInputs`, each with what `Image.open` makes of it.
- **PIL calls.** `Image.open`, `resize`, `convert`, `save` and `JpegImagePlugin.get_sampling` are foreign calls:
  - the opened image is an input (format, mode, ICC profile, native sampling), and a file that fails to open has no image;
  - resizing, conversion and saving are recorded in the plan rather than performed;
  - errors raised inside `resize`, `convert` and `save` are not modelled.
- **Scaled dimensions.** `int(image.width * scale)` with `scale = int(p) / 100` is floating-point truncation. The plan records only the percentage `p`. Two float overflows are not modelled: `int(p) / 100` raises `OverflowError` once `|p|` exceeds about 1.8×10^310, and `int(image.width * scale)` raises `OverflowError` when the product is infinite. The model accepts such a scale and plans the file.
- **The dry-run I/O.** The model records whether `save` is called (`FilePlan.written`) and nothing more.
- Naming.Upper: upper-cases ASCII letters only. Python's `str.upper` also maps other letters, and some to several characters (`ß` to `SS`).
- Pipeline.RaisesNothing: is weaker than the script, because neither it nor `Pipeline.FileError` sees the float overflows of the scaled dimensions described above. A scale of more than about 310 digits, or one whose scaled width or height is infinite, is planned although the script raises `OverflowError` at resize.py:66 or resize.py:42.
- PyInt.ParseInt: accepts only the six ASCII spacing characters space, tab, line feed, carriage return, vertical tab and form feed, and ASCII digits. Python's `int()` also accepts Unicode digits and whitespace, and underscores between digits (`1_0`). It sets no limit on the number of digits, whereas CPython (3.11, and 3.10.7 on) refuses `int()` of a literal of more than 4300 digits, and `str()` of such an integer, with `ValueError`. So a 4301-digit `--quality` raises at line 103 in CPython but is accepted by `SaveParams.ParamsFor`.
- PurePath.Suffix: follows pathlib up to Python 3.13, where a trailing `.` is not a suffix; Python 3.14 treats a trailing `.` as the suffix.
- PurePath.Parse: a leading `//`, which pathlib keeps as a distinct root, is read as `/`.
- The `with` block's closing of the image is not modelled.
