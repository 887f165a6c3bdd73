/** `ConvertToBinaryConfig::new` of the command-line front end: the settings
    of the convert-to-binary subcommand, read from its argument matches. */
module CliConvertToBinaryConfig {
  import opened RustStd
  import opened Clap

  /** The threshold used when the argument does not parse as a `u32`. */
  const DefaultThreshold: nat := 150

  const InputFileArg := "input-file"
  const OutputFileArg := "output-file"
  const ThresholdArg := "threshold"

  /** `threshold` is a `u32`: at most `U32Max`. */
  datatype ConvertToBinaryConfig = ConvertToBinaryConfig(inputFile: string, outputFile: string, threshold: nat)

  /** `ConvertToBinaryConfig::new`: the file names are copied through; the
      threshold is the parsed `u32` when the text parses, and 150 otherwise.
      There is no check against 255. A missing argument panics in `unwrap`. */
  function New(matches: ArgMatches): (r: Result<ConvertToBinaryConfig, Panic>)
    ensures r.Ok? <==> InputFileArg in matches && OutputFileArg in matches && ThresholdArg in matches
    ensures r.Err? ==> r.error == UnwrapNone
    ensures r.Ok? ==>
      r.value.inputFile == matches[InputFileArg] && r.value.outputFile == matches[OutputFileArg]
    ensures r.Ok? ==> r.value.threshold <= U32Max
    ensures r.Ok? ==>
      var parsed := ParseUnsigned(matches[ThresholdArg], U32Max);
      (parsed.Some? ==> r.value.threshold == parsed.value) &&
      (parsed.None? ==> r.value.threshold == DefaultThreshold)
  {
    if InputFileArg !in matches || OutputFileArg !in matches || ThresholdArg !in matches then
      Err(UnwrapNone)
    else
      var threshold :=
        match ParseUnsigned(matches[ThresholdArg], U32Max)
        case Some(value) => value
        case None => DefaultThreshold;
      Ok(ConvertToBinaryConfig(matches[InputFileArg], matches[OutputFileArg], threshold))
  }

  /** Any number that fits a `u32`, 300 and 9999 included, is kept as
      written; a number too large for it falls back to 150. */
  lemma WrittenThreshold(matches: ArgMatches, n: nat)
    requires InputFileArg in matches && OutputFileArg in matches && ThresholdArg in matches
    requires matches[ThresholdArg] == NatToString(n)
    ensures New(matches).Ok?
    ensures New(matches).value.threshold == if n <= U32Max then n else DefaultThreshold
  {
    ParseNatToString(n, U32Max);
  }

  /** Text that is not a plain unsigned number falls back to 150: empty text,
      or text that starts with anything but a digit or '+' (a '-', any white
      space, any other character), or ends with anything but a digit. */
  lemma MalformedThreshold(matches: ArgMatches)
    requires InputFileArg in matches && OutputFileArg in matches && ThresholdArg in matches
    requires var text := matches[ThresholdArg];
      text == [] || (!IsDigit(text[0]) && text[0] != '+') || !IsDigit(text[|text| - 1])
    ensures New(matches).Ok? && New(matches).value.threshold == DefaultThreshold
  {
    var text := matches[ThresholdArg];
    assert |text| >= 2 ==> text[1..][|text| - 2] == text[|text| - 1];
  }
}
