/** `SkeletonizeConfig::new` of the command-line front end: the settings of
    the skeletonize subcommand, read from its argument matches. */
module CliSkeletonizeConfig {
  import opened RustStd
  import opened Strategies
  import opened Clap

  datatype SkeletonizationAlgorithm = Eberly | Rosenfeld | ZhangSuen

  datatype SkeletonizeConfig = SkeletonizeConfig(
    inputFile: string,
    outputFile: string,
    algorithm: SkeletonizationAlgorithm,
    adjacencyMode: Option<AdjacencyMode>)

  /** How each algorithm is spelt on the command line. */
  function AlgorithmKeyword(a: SkeletonizationAlgorithm): string {
    match a
    case Eberly => "Eberly"
    case Rosenfeld => "Rosenfeld"
    case ZhangSuen => "ZhangSuen"
  }

  /** How each adjacency mode is spelt on the command line. */
  function ModeKeyword(m: AdjacencyMode): string {
    match m
    case Four => "Four"
    case Eight => "Eight"
  }

  /** The algorithm argument: an exact, case-sensitive match on a keyword,
      and a panic for any other text. */
  function ParseAlgorithm(text: string): (r: Result<SkeletonizationAlgorithm, Panic>)
    ensures forall a :: AlgorithmKeyword(a) == text ==> r == Ok(a)
    ensures r.Ok? ==> AlgorithmKeyword(r.value) == text
    ensures r.Err? ==> r.error == Explicit("Unknown algorithm")
  {
    match text
    case "Eberly" => Ok(Eberly)
    case "Rosenfeld" => Ok(Rosenfeld)
    case "ZhangSuen" => Ok(ZhangSuen)
    case _ => Err(Explicit("Unknown algorithm"))
  }

  /** The optional adjacency-mode argument: absent gives no mode, a keyword
      gives its mode, any other text panics. */
  function ParseAdjacencyMode(arg: Option<string>): (r: Result<Option<AdjacencyMode>, Panic>)
    ensures arg.None? ==> r == Ok(None)
    ensures arg.Some? ==> forall m :: ModeKeyword(m) == arg.value ==> r == Ok(Some(m))
    ensures arg.Some? && r.Ok? ==> r.value.Some? && ModeKeyword(r.value.value) == arg.value
    ensures r.Err? ==> r.error == Explicit("Unknown adjacency mode")
  {
    match arg
    case None => Ok(None)
    case Some(text) =>
      match text
      case "Four" => Ok(Some(Four))
      case "Eight" => Ok(Some(Eight))
      case _ => Err(Explicit("Unknown adjacency mode"))
  }

  const InputFileArg := "input-file"
  const OutputFileArg := "output-file"
  const AlgorithmArg := "algorithm"
  const AdjacencyModeArg := "adjacency-mode"

  /** `SkeletonizeConfig::new`: the file names are copied through; the
      algorithm and the adjacency mode are parsed each from its own argument
      alone. A missing required argument panics in `unwrap`; otherwise an
      unknown algorithm panics first, and only then an unknown mode. */
  function New(matches: ArgMatches): (r: Result<SkeletonizeConfig, Panic>)
    ensures r.Ok? <==>
      InputFileArg in matches && OutputFileArg in matches && AlgorithmArg in matches &&
      ParseAlgorithm(matches[AlgorithmArg]).Ok? &&
      ParseAdjacencyMode(ValueOf(matches, AdjacencyModeArg)).Ok?
    ensures r.Ok? ==>
      r.value.inputFile == matches[InputFileArg] && r.value.outputFile == matches[OutputFileArg]
    ensures r.Ok? ==> AlgorithmKeyword(r.value.algorithm) == matches[AlgorithmArg]
    ensures r.Ok? ==> r.value.adjacencyMode == ParseAdjacencyMode(ValueOf(matches, AdjacencyModeArg)).value
    ensures r.Ok? ==> (r.value.adjacencyMode.Some? <==> AdjacencyModeArg in matches)
    ensures (InputFileArg !in matches || OutputFileArg !in matches || AlgorithmArg !in matches) ==>
      r == Err(UnwrapNone)
    ensures (InputFileArg in matches && OutputFileArg in matches && AlgorithmArg in matches &&
             ParseAlgorithm(matches[AlgorithmArg]).Err?) ==>
      r == Err(Explicit("Unknown algorithm"))
    ensures (InputFileArg in matches && OutputFileArg in matches && AlgorithmArg in matches &&
             ParseAlgorithm(matches[AlgorithmArg]).Ok? &&
             ParseAdjacencyMode(ValueOf(matches, AdjacencyModeArg)).Err?) ==>
      r == Err(Explicit("Unknown adjacency mode"))
  {
    if InputFileArg !in matches || OutputFileArg !in matches || AlgorithmArg !in matches then
      Err(UnwrapNone)
    else
      match ParseAlgorithm(matches[AlgorithmArg])
      case Err(p) => Err(p)
      case Ok(algorithm) =>
        match ParseAdjacencyMode(ValueOf(matches, AdjacencyModeArg))
        case Err(p) => Err(p)
        case Ok(mode) =>
          Ok(SkeletonizeConfig(matches[InputFileArg], matches[OutputFileArg], algorithm, mode))
  }
}
