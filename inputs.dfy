/**
 * What the script reads for one run: the parsed command-line options and, for each file, the
 * properties of the opened image that the decision rules consult.
 */
module Inputs {
  import opened Wrappers

  /**
   * The parsed options. An option with a default is always a string; one without a default is
   * `None` when absent on the command line.
   */
  datatype Args = Args(
    scale: string,                // --scale, default "100"
    format: Option<string>,       // --format
    directory: Option<string>,    // --directory
    prefix: Option<string>,       // --prefix
    suffix: Option<string>,       // --suffix
    quality: string,              // --quality, default "75"
    compression: string,          // --compression, default "6"
    subsampling: string,          // --subsampling, default "keep"
    excludeIcc: bool,             // --exclude-icc
    dryRun: bool                  // --dry-run
  )

  /** The options as they are when only the input files are given. */
  const Defaults := Args("100", None, None, None, None, "75", "6", "keep", false, false)

  /**
   * The opened image: its `format` and `mode`, `info.get("icc_profile")`, and the value
   * `JpegImagePlugin.get_sampling` reports for it (consulted only for a JPEG source).
   */
  datatype SourceImage = SourceImage(
    format: string,
    mode: string,
    iccProfile: Option<seq<bv8>>,
    nativeSampling: int
  )

  /** Whether an optional string option is truthy in Python: present and not empty. */
  predicate Given(o: Option<string>) {
    o.Some? && o.value != ""
  }

  /** `option or ""`. */
  function OrEmpty(o: Option<string>): (r: string)
    ensures Given(o) ==> r == o.value
    ensures !Given(o) ==> r == ""
  {
    if o.Some? then o.value else ""
  }
}
