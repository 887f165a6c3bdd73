/** The skeletonization strategies of the image-processing library
    (`improc_petrsu`), by identity only: their pixel rules are not part of
    this model. */
module Strategies {

  /** Neighbourhood used by the Rosenfeld skeletonizer. */
  datatype AdjacencyMode = Four | Eight

  /** A constructed `Box<dyn Skeletonizer>`: which algorithm, with its parameter. */
  datatype Skeletonizer =
    | RosenfeldSkeletonizer(mode: AdjacencyMode)
    | EberlySkeletonizer
    | ZhangSuenSkeletonizer
}
