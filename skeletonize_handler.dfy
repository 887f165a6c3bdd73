/** The strategy selection at the start of `SkeletonizeHandler::execute`;
    the image I/O that follows it is not part of this model. */
module CliSkeletonizeHandler {
  import opened RustStd
  import opened Strategies
  import opened Clap
  import opened CliSkeletonizeConfig

  /** The skeletonizer the configuration names; Rosenfeld takes the
      configured adjacency mode, and panics in `unwrap` when there is none. */
  function SelectSkeletonizer(config: SkeletonizeConfig): (r: Result<Skeletonizer, Panic>)
    ensures r.Err? <==> config.algorithm.Rosenfeld? && config.adjacencyMode.None?
    ensures r.Err? ==> r.error == UnwrapNone
    ensures r.Ok? ==>
      (r.value.RosenfeldSkeletonizer? <==> config.algorithm.Rosenfeld?) &&
      (r.value.EberlySkeletonizer? <==> config.algorithm.Eberly?) &&
      (r.value.ZhangSuenSkeletonizer? <==> config.algorithm.ZhangSuen?)
    ensures r.Ok? && r.value.RosenfeldSkeletonizer? ==> config.adjacencyMode == Some(r.value.mode)
  {
    match config.algorithm
    case ZhangSuen => Ok(ZhangSuenSkeletonizer)
    case Eberly => Ok(EberlySkeletonizer)
    case Rosenfeld =>
      match config.adjacencyMode
      case None => Err(UnwrapNone)
      case Some(mode) => Ok(RosenfeldSkeletonizer(mode))
  }

  /** What `execute` hands on to the image I/O once a skeletonizer exists. */
  datatype ImageJob = ImageJob(skeletonizer: Skeletonizer, inputFile: string, outputFile: string)

  /** `execute` up to the first I/O: selection comes first, so a Rosenfeld
      configuration without a mode panics before any file is opened. */
  function Execute(config: SkeletonizeConfig): (r: Result<ImageJob, Panic>)
    ensures r.Err? <==> SelectSkeletonizer(config).Err?
    ensures r.Err? ==> r.error == UnwrapNone
    ensures r.Ok? ==>
      r.value.skeletonizer == SelectSkeletonizer(config).value &&
      r.value.inputFile == config.inputFile && r.value.outputFile == config.outputFile
  {
    match SelectSkeletonizer(config)
    case Err(p) => Err(p)
    case Ok(s) => Ok(ImageJob(s, config.inputFile, config.outputFile))
  }

  /** From the command line: given the algorithm "Rosenfeld", the run gets
      past strategy selection exactly when an adjacency mode was given, and
      then uses exactly that mode. */
  lemma RosenfeldNeedsMode(matches: ArgMatches)
    requires New(matches).Ok? && matches[AlgorithmArg] == "Rosenfeld"
    ensures Execute(New(matches).value).Ok? <==> AdjacencyModeArg in matches
    ensures Execute(New(matches).value).Ok? ==>
      ModeKeyword(Execute(New(matches).value).value.skeletonizer.mode) == matches[AdjacencyModeArg]
  {
  }
}
