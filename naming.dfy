/**
 * The decision rules in the body of `main` that turn the options and the image's properties into
 * the target format, the colour fix-up and the output path.
 */
module Naming {
  import opened Wrappers
  import opened Inputs
  import opened PurePath

  /** `str.upper()` on one character, for ASCII letters. */
  function UpperChar(c: char): char {
    if 'a' <= c <= 'z' then (c as int - 'a' as int + 'A' as int) as char else c
  }

  /** `str.upper()`, for ASCII letters. */
  function Upper(s: string): (r: string)
    ensures |r| == |s|
    decreases |s|
  {
    if s == [] then [] else [UpperChar(s[0])] + Upper(s[1..])
  }

  /** Upper-casing twice is upper-casing once. */
  lemma {:induction false} UpperIdempotent(s: string)
    ensures Upper(Upper(s)) == Upper(s)
    decreases |s|
  {
    if s != [] {
      UpperIdempotent(s[1..]);
      assert Upper(s)[1..] == Upper(s[1..]);
    }
  }

  /** The target format: the upper-cased `--format` when it is given, else the source's format. */
  function ResolveFormat(formatOption: Option<string>, sourceFormat: string): string {
    if Given(formatOption) then Upper(formatOption.value) else sourceFormat
  }

  /**
   * A `--format` that is given decides the format, and the result is already upper case; an absent
   * or empty one leaves the source's format.
   */
  lemma ResolveFormatSource(formatOption: Option<string>, sourceFormat: string)
    ensures Given(formatOption) ==> ResolveFormat(formatOption, sourceFormat) == Upper(formatOption.value)
    ensures Given(formatOption) ==> Upper(ResolveFormat(formatOption, sourceFormat)) == ResolveFormat(formatOption, sourceFormat)
    ensures !Given(formatOption) ==> ResolveFormat(formatOption, sourceFormat) == sourceFormat
  {
    if Given(formatOption) {
      UpperIdempotent(formatOption.value);
    }
  }

  /** Any string is upper-cased, not only `jpeg` and `png`; an empty `--format` counts as absent. */
  lemma ResolveFormatExamples(sourceFormat: string)
    ensures ResolveFormat(Some("jpeg"), sourceFormat) == "JPEG"
    ensures ResolveFormat(Some("Png"), sourceFormat) == "PNG"
    ensures ResolveFormat(Some("gif"), sourceFormat) == "GIF"
    ensures ResolveFormat(Some("jpg"), sourceFormat) == "JPG"
    ensures ResolveFormat(Some(""), sourceFormat) == sourceFormat
  {
    assert Upper("g") == "G";
    assert Upper("if") == "IF";
    assert Upper("jpg") == "JPG";
    assert Upper("peg") == "PEG";
    assert Upper("jpeg") == "JPEG";
    assert Upper("ng") == "NG";
    assert Upper("Png") == "PNG";
  }

  /** Whether the image is converted to RGB before it is saved. */
  function NeedsRgbConversion(format: string, mode: string): bool {
    format == "JPEG" && (mode == "RGBA" || mode == "P")
  }

  /** The extension of the output file. */
  function ChooseExtension(format: string, path: Path): string {
    if format == "JPEG" then ".jpg"
    else if format == "PNG" then ".png"
    else Suffix(Name(path))
  }

  /**
   * The extension is empty or a single dot-started component; it is the input's own suffix for
   * every format but JPEG and PNG.
   */
  lemma ExtensionShape(format: string, path: Path)
    requires Valid(path)
    ensures var ext := ChooseExtension(format, path);
      ext == "" || (IsComponent(ext) && ext[0] == '.')
    ensures format != "JPEG" && format != "PNG" ==> ChooseExtension(format, path) == Suffix(Name(path))
  {
  }

  /** `--format jpg` is not JPEG: the output keeps the input's suffix rather than getting `.jpg`. */
  lemma JpgSpellingKeepsSuffix(sourceFormat: string, path: Path)
    ensures ChooseExtension(ResolveFormat(Some("jpg"), sourceFormat), path) == Suffix(Name(path))
  {
    ResolveFormatExamples(sourceFormat);
  }

  /** Where the output goes: `--directory` when given, else the input's directory. */
  function OutputBase(path: Path, directory: Option<string>): Path {
    if Given(directory) then Parse(directory.value) else Parent(path)
  }

  /** `prefix + stem + suffix + extension`. */
  function OutputFileName(path: Path, prefix: Option<string>, suffix: Option<string>, ext: string): string {
    OrEmpty(prefix) + Stem(Name(path)) + OrEmpty(suffix) + ext
  }

  /** The output path: the file name joined onto the base. */
  function OutputPath(path: Path, directory: Option<string>, prefix: Option<string>, suffix: Option<string>, ext: string): Path {
    Join(OutputBase(path, directory), OutputFileName(path, prefix, suffix, ext))
  }

  /**
   * With no directory, no prefix, no suffix and the input's own extension, the output path is the
   * input path: the file is overwritten.
   */
  lemma OutputPathOverwrite(path: Path, directory: Option<string>, prefix: Option<string>, suffix: Option<string>)
    requires Valid(path)
    requires !Given(directory) && OrEmpty(prefix) == "" && OrEmpty(suffix) == ""
    ensures OutputPath(path, directory, prefix, suffix, Suffix(Name(path))) == path
  {
    StemSuffix(Name(path));
    assert OutputFileName(path, prefix, suffix, Suffix(Name(path))) == Name(path);
    JoinParentName(path);
  }

  /** The output file's name ends in the extension, whatever the prefix and the suffix hold. */
  lemma OutputNameEndsWithExtension(path: Path, directory: Option<string>, prefix: Option<string>, suffix: Option<string>, ext: string)
    requires IsComponent(ext)
    ensures EndsWith(Name(OutputPath(path, directory, prefix, suffix, ext)), ext)
  {
    var front := OrEmpty(prefix) + Stem(Name(path)) + OrEmpty(suffix);
    assert OutputFileName(path, prefix, suffix, ext) == front + ext;
    JoinNameEndsWith(OutputBase(path, directory), front, ext);
  }

  /** When the file name is a single component, the output sits directly in the base directory. */
  lemma OutputPathPlacement(path: Path, directory: Option<string>, prefix: Option<string>, suffix: Option<string>, ext: string)
    requires IsComponent(OutputFileName(path, prefix, suffix, ext))
    ensures Parent(OutputPath(path, directory, prefix, suffix, ext)) == OutputBase(path, directory)
    ensures Name(OutputPath(path, directory, prefix, suffix, ext)) == OutputFileName(path, prefix, suffix, ext)
  {
    JoinComponent(OutputBase(path, directory), OutputFileName(path, prefix, suffix, ext));
  }

  /** An output file name that is a single component, under a directory that is one, has those two parts. */
  lemma OutputInDirectory(path: Path, directory: string, prefix: Option<string>, suffix: Option<string>, ext: string)
    requires IsComponent(directory) && IsComponent(OutputFileName(path, prefix, suffix, ext))
    ensures OutputPath(path, Some(directory), prefix, suffix, ext)
            == Path(false, [directory, OutputFileName(path, prefix, suffix, ext)])
  {
    ParseComponent(directory);
    JoinComponent(Path(false, [directory]), OutputFileName(path, prefix, suffix, ext));
  }

  /** A dot-started extension with no further dot and no slash, such as `.jpg`. */
  predicate IsExtension(e: string) {
    |e| >= 2 && e[0] == '.' && '.' !in e[1..] && '/' !in e
  }

  /**
   * `<stem><inExt>` saved with a `--directory` and a `--prefix` and no `--suffix` under the
   * extension `ext` goes to `<directory>/<prefix><stem><ext>`.
   */
  lemma RenamedInDirectory(directory: string, prefix: string, stem: string, inExt: string, ext: string)
    requires IsComponent(directory) && IsComponent(stem) && '/' !in prefix
    requires IsExtension(inExt) && IsExtension(ext)
    ensures OutputPath(Parse(stem + inExt), Some(directory), Some(prefix), None, ext)
            == Path(false, [directory, prefix + stem + ext])
  {
    var path := Path(false, [stem + inExt]);
    assert Parse(stem + inExt) == path && Stem(Name(path)) == stem by {
      ComponentWithExtension(stem, inExt);
    }
    assert IsComponent(prefix + stem + ext) by {
      assert forall i :: 0 <= i < |prefix + stem| ==> (prefix + stem)[i] in prefix || (prefix + stem)[i] in stem;
      ComponentWithExtension(prefix + stem, ext);
    }
    assert OutputFileName(path, Some(prefix), None, ext) == prefix + stem + ext;
    OutputInDirectory(path, directory, Some(prefix), None, ext);
  }

  /**
   * `<stem><inExt>` saved with no directory, no prefix and no suffix under the extension `ext`
   * goes to `<stem><ext>` beside it.
   */
  lemma RenamedInPlace(directory: Option<string>, prefix: Option<string>, suffix: Option<string>,
                       stem: string, inExt: string, ext: string)
    requires !Given(directory) && OrEmpty(prefix) == "" && OrEmpty(suffix) == ""
    requires IsComponent(stem) && IsExtension(inExt) && IsExtension(ext)
    ensures OutputPath(Parse(stem + inExt), directory, prefix, suffix, ext) == Path(false, [stem + ext])
  {
    var path := Path(false, [stem + inExt]);
    assert Parse(stem + inExt) == path && Stem(Name(path)) == stem by {
      ComponentWithExtension(stem, inExt);
    }
    assert IsComponent(stem + ext) by {
      ComponentWithExtension(stem, ext);
    }
    assert OutputFileName(path, prefix, suffix, ext) == stem + ext;
    assert OutputBase(path, directory) == Path(false, []);
    JoinComponent(Path(false, []), stem + ext);
  }

  /**
   * The file name is a single component when the prefix and the suffix hold no `/` and the input
   * has a name.
   */
  lemma FileNameIsComponent(path: Path, format: string, prefix: Option<string>, suffix: Option<string>)
    requires Valid(path) && path.parts != []
    requires '/' !in OrEmpty(prefix) && '/' !in OrEmpty(suffix)
    ensures IsComponent(OutputFileName(path, prefix, suffix, ChooseExtension(format, path)))
  {
    var name := Name(path);
    var stem := Stem(name);
    var ext := ChooseExtension(format, path);
    ExtensionShape(format, path);
    StemSuffix(name);
    var f := OutputFileName(path, prefix, suffix, ext);
    assert f == OrEmpty(prefix) + stem + (OrEmpty(suffix) + ext);
  }

  /**
   * A prefix that starts with `/` makes the file name absolute, and pathlib's `/` then discards the
   * base: the output lands outside `--directory`.
   */
  lemma AbsolutePrefixIgnoresBase(path: Path, directory: Option<string>, prefix: Option<string>, suffix: Option<string>, ext: string)
    requires OrEmpty(prefix) != "" && OrEmpty(prefix)[0] == '/'
    ensures OutputPath(path, directory, prefix, suffix, ext) == Parse(OutputFileName(path, prefix, suffix, ext))
  {
  }
}
