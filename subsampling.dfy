/** `parse_subsampling`: the JPEG chroma subsampling the save call is asked for. */
module Subsampling {
  import opened Wrappers
  import opened Errors
  import opened PyInt

  /**
   * The subsampling for the option `option` (`"auto"`, `"keep"` or an integer literal) and a source
   * image of format `sourceFormat` whose own sampling is `nativeSampling`. `None` leaves the choice
   * to the library; an option that is none of these raises `ValueError`.
   */
  function ParseSubsampling(option: string, sourceFormat: string, nativeSampling: int): Result<Option<int>, Error> {
    if option == "auto" then Ok(None)
    else if option == "keep" && sourceFormat != "JPEG" then Ok(None)
    else if option == "keep" then Ok(Some(nativeSampling))
    else
      match ParseInt(option)
      case Some(n) => Ok(Some(n))
      case None => Err(InvalidLiteral(option))
  }

  /** `auto` never asks for a subsampling, whatever the source. */
  lemma AutoIsNone(sourceFormat: string, nativeSampling: int)
    ensures ParseSubsampling("auto", sourceFormat, nativeSampling) == Ok(None)
  {
  }

  /** `keep` keeps a JPEG source's own sampling and acts as `auto` for any other source. */
  lemma KeepFollowsSource(sourceFormat: string, nativeSampling: int)
    ensures sourceFormat == "JPEG" ==> ParseSubsampling("keep", sourceFormat, nativeSampling) == Ok(Some(nativeSampling))
    ensures sourceFormat != "JPEG" ==> ParseSubsampling("keep", sourceFormat, nativeSampling) == Ok(None)
  {
  }

  /** An explicit number `n` resolves to `n`, whatever the source's format or sampling. */
  lemma ExplicitNumber(n: int, sourceFormat: string, nativeSampling: int)
    ensures ParseSubsampling(Decimal(n), sourceFormat, nativeSampling) == Ok(Some(n))
  {
    var s := Decimal(n);
    assert s != "auto" && s != "keep" by {
      assert s[0] != 'a' && s[0] != 'k';
    }
    DecimalRoundTrip(n);
  }

  /** Any option other than `auto` and `keep` is read without looking at the source. */
  lemma ExplicitIgnoresSource(option: string, format1: string, sampling1: int, format2: string, sampling2: int)
    requires option != "auto" && option != "keep"
    ensures ParseSubsampling(option, format1, sampling1) == ParseSubsampling(option, format2, sampling2)
  {
  }

  /** The call fails exactly when the option is not `auto`, not `keep` and not an integer literal. */
  lemma SubsamplingFailsIff(option: string, sourceFormat: string, nativeSampling: int)
    ensures ParseSubsampling(option, sourceFormat, nativeSampling).Err?
        <==> option != "auto" && option != "keep" && ParseInt(option).None?
    ensures ParseSubsampling(option, sourceFormat, nativeSampling).Err?
        ==> ParseSubsampling(option, sourceFormat, nativeSampling).error == InvalidLiteral(option)
  {
  }

  /** A ratio such as `4:2:0` is not accepted: only the numbers 0, 1 and 2 stand for ratios. */
  lemma RatioRejected(sourceFormat: string, nativeSampling: int)
    ensures ParseSubsampling("4:2:0", sourceFormat, nativeSampling) == Err(InvalidLiteral("4:2:0"))
  {
    assert "4:2:0"[1] == ':';
    ParseIntRejects("4:2:0", 1);
  }
}
