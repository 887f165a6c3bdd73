/** The event handlers of the interactive front end, reduced to what they do
    to the history: load, convert to binary, skeletonize and undo. Dialogs
    appear as their answers (confirmed or not, the spin value, the combo
    id), and the image codec and the image-processing library as injected
    functions. */
module GtkUi {
  import opened RustStd
  import opened Strategies
  import opened GtkAppState

  /** A decoded RGB raster and a two-colour raster; their pixels are the
      image library's concern. */
  datatype RgbImage = RgbImage(width: nat, height: nat, pixels: seq<byte>)
  datatype BinaryImage = BinaryImage(width: nat, height: nat, pixels: seq<bool>)

  /** The external collaborators, as deterministic functions. Decoding and
      PNG encoding can fail; the pixel transforms cannot. */
  datatype Collaborators = Collaborators(
    decode: seq<byte> -> Option<RgbImage>,                 // load_from_memory, then to_rgb
    encodePng: RgbImage -> Option<seq<byte>>,              // write_to with the PNG format
    threshold: (nat, RgbImage) -> RgbImage,                // ThresholdBinaryImageConverter
    toBinary: RgbImage -> BinaryImage,                     // BinaryImage::from_image, white foreground
    skeletonize: (Skeletonizer, BinaryImage) -> BinaryImage, // Skeletonizer::process
    toRgb: BinaryImage -> RgbImage)                        // to_rgb_image

  /** What the file chooser and the file system gave the load handler. */
  datatype FileChoice = NoFileChosen | OpenFailed | ReadFailed | FileContents(bytes: seq<byte>)

  /** How one event ended. `ErrorDialog` is an error shown to the user; a
      panic ends the process. */
  datatype Outcome =
    | Cancelled
    | Committed(snapshot: ImageSnapshot)
    | Loaded
    | Undone(snapshot: ImageSnapshot)
    | NothingToUndo
    | ErrorDialog(message: string)
    | Panicked(panic: Panic)

  const ReadBytesError := "Couldn't read the image bytes"
  const PngError := "Couldn't write the image as PNG"
  const ThresholdPanic := "threshold must be between 0 and 255 inclusive!"
  const BinarizePrefix := "Converted to binary with threshold: "

  predicate ValidThreshold(t: int) {
    0 <= t <= 255
  }

  function BinarizeDescription(t: nat): string {
    BinarizePrefix + NatToString(t)
  }

  function SkeletonizeDescription(name: string): string {
    "Skeletonized the image with the " + name + " algorithm"
  }

  /** The threshold can be read back from a binarization description, so
      different thresholds give different descriptions. */
  lemma ThresholdInDescription(t: nat)
    requires ValidThreshold(t)
    ensures BinarizeDescription(t)[..|BinarizePrefix|] == BinarizePrefix
    ensures ParseUnsigned(BinarizeDescription(t)[|BinarizePrefix|..], U8Max) == Some(t)
  {
    assert BinarizeDescription(t)[|BinarizePrefix|..] == NatToString(t);
    ParseNatToString(t, U8Max);
  }

  /** Decode, threshold and re-encode the latest image. */
  function BinarizedBytes(latest: seq<byte>, t: nat, lib: Collaborators): Result<seq<byte>, string> {
    match lib.decode(latest)
    case None => Err(ReadBytesError)
    case Some(image) =>
      match lib.encodePng(lib.threshold(t, image))
      case None => Err(PngError)
      case Some(bytes) => Ok(bytes)
  }

  /** Decode the latest image, make it binary, skeletonize it, turn it back
      into RGB and re-encode it. */
  function SkeletonizedBytes(latest: seq<byte>, s: Skeletonizer, lib: Collaborators): Result<seq<byte>, string> {
    match lib.decode(latest)
    case None => Err(ReadBytesError)
    case Some(image) =>
      match lib.encodePng(lib.toRgb(lib.skeletonize(s, lib.toBinary(image))))
      case None => Err(PngError)
      case Some(bytes) => Ok(bytes)
  }

  /** The combo box's active id as a number: `get_active_id().unwrap()`
      then `parse::<u8>().unwrap()`. */
  function ComboId(activeId: Option<string>): (r: Result<nat, Panic>)
    ensures r.Ok? ==> r.value <= U8Max
    ensures activeId.None? ==> r == Err(UnwrapNone)
    ensures activeId.Some? ==> (r.Ok? <==> ParseUnsigned(activeId.value, U8Max).Some?)
    ensures activeId.Some? && r.Ok? ==> r.value == ParseUnsigned(activeId.value, U8Max).value
    ensures activeId.Some? && r.Err? ==> r.error == UnwrapErr
  {
    match activeId
    case None => Err(UnwrapNone)
    case Some(text) =>
      match ParseUnsigned(text, U8Max)
      case None => Err(UnwrapErr)
      case Some(n) => Ok(n)
  }

  /** Every id the combo box can hold, written in decimal, is read back as itself. */
  lemma ComboIdOfNumber(n: nat)
    requires n <= U8Max
    ensures ComboId(Some(NatToString(n))) == Ok(n)
  {
    ParseNatToString(n, U8Max);
  }

  /** The skeletonizer for a combo id: 0 is Rosenfeld with eight-adjacency,
      1 is Eberly, 2 is Zhang-Suen, and any other id panics. */
  function SkeletonizerForId(id: nat): (r: Result<Skeletonizer, Panic>)
    ensures r.Ok? <==> id < 3
    ensures r.Err? ==> r.error == Explicit("Unknow skeletonizer value!")
    ensures id == 0 ==> r == Ok(RosenfeldSkeletonizer(Eight))
    ensures id == 1 ==> r == Ok(EberlySkeletonizer)
    ensures id == 2 ==> r == Ok(ZhangSuenSkeletonizer)
  {
    match id
    case 0 => Ok(RosenfeldSkeletonizer(Eight))
    case 1 => Ok(EberlySkeletonizer)
    case 2 => Ok(ZhangSuenSkeletonizer)
    case _ => Err(Explicit("Unknow skeletonizer value!"))
  }

  /** The algorithm name put in the description: defined for exactly the
      ids that have a skeletonizer, and naming that skeletonizer. */
  function AlgorithmName(id: nat): (r: Result<string, Panic>)
    ensures r.Ok? <==> SkeletonizerForId(id).Ok?
    ensures r.Ok? ==> var s := SkeletonizerForId(id).value;
      (r.value == "Rosenfeld" <==> s.RosenfeldSkeletonizer?) &&
      (r.value == "Eberly" <==> s.EberlySkeletonizer?) &&
      (r.value == "Zhang Suen" <==> s.ZhangSuenSkeletonizer?)
    ensures r.Err? ==> r.error == Explicit("Unknown skeletonizer value!")
  {
    match id
    case 0 => Ok("Rosenfeld")
    case 1 => Ok("Eberly")
    case 2 => Ok("Zhang Suen")
    case _ => Err(Explicit("Unknown skeletonizer value!"))
  }

  /** `file_set_handler`: on a successfully read file, load it as the new
      original; on any failure, report it and leave the history alone. */
  method FileSetHandler(state: AppState, choice: FileChoice) returns (o: Outcome)
    modifies state
    ensures choice.FileContents? ==>
      o == Loaded && state.Model() == SetOriginal(old(state.Model()), choice.bytes)
    ensures choice.NoFileChosen? ==> o == ErrorDialog("You didn't choose a file!")
    ensures choice.OpenFailed? ==> o == ErrorDialog("Unable to open the file")
    ensures choice.ReadFailed? ==> o == ErrorDialog("Unable to read the file")
    ensures !choice.FileContents? ==> state.Model() == old(state.Model())
  {
    match choice
    case NoFileChosen =>
      o := ErrorDialog("You didn't choose a file!");
    case OpenFailed =>
      o := ErrorDialog("Unable to open the file");
    case ReadFailed =>
      o := ErrorDialog("Unable to read the file");
    case FileContents(bytes) =>
      state.SetOriginalImage(bytes);
      o := Loaded;
  }

  /** `convert_to_binary_handler`: commits exactly one snapshot when the
      dialog is confirmed, the threshold is in range and both decoding and
      encoding succeed; otherwise the history is untouched. An out-of-range
      threshold panics before the image is read. */
  method ConvertToBinaryHandler(state: AppState, confirmed: bool, threshold: int, lib: Collaborators)
    returns (o: Outcome)
    modifies state`snapshots
    ensures !confirmed ==> o == Cancelled
    ensures confirmed && !ValidThreshold(threshold) ==> o == Panicked(Explicit(ThresholdPanic))
    ensures confirmed && ValidThreshold(threshold) ==>
      match BinarizedBytes(old(Latest(state.Model())), threshold, lib)
      case Err(message) => o == ErrorDialog(message)
      case Ok(bytes) => o == Committed(ImageSnapshot(bytes, BinarizeDescription(threshold)))
    ensures o.Committed? ==> state.Model() == Push(old(state.Model()), o.snapshot)
    ensures !o.Committed? ==> state.Model() == old(state.Model())
  {
    if !confirmed {
      o := Cancelled;
      return;
    }
    if threshold < 0 || threshold > 255 {
      o := Panicked(Explicit(ThresholdPanic));
      return;
    }
    var latest := state.GetLatestImage();
    var image := lib.decode(latest);
    if image.None? {
      o := ErrorDialog(ReadBytesError);
      return;
    }
    var converted := lib.threshold(threshold, image.value);
    var png := lib.encodePng(converted);
    if png.None? {
      o := ErrorDialog(PngError);
      return;
    }
    var description := BinarizeDescription(threshold);
    state.PushSnapshot(description, png.value);
    o := Committed(ImageSnapshot(png.value, description));
  }

  /** `skeletonize_handler`: the combo id picks the skeletonizer (an
      unknown id panics before the image is read); one snapshot, whose
      description names the algorithm applied, is committed when decoding
      and encoding succeed; otherwise the history is untouched. */
  method SkeletonizeHandler(state: AppState, confirmed: bool, activeId: Option<string>, lib: Collaborators)
    returns (o: Outcome)
    modifies state`snapshots
    ensures !confirmed ==> o == Cancelled
    ensures confirmed ==>
      match ComboId(activeId)
      case Err(p) => o == Panicked(p)
      case Ok(id) =>
        match SkeletonizerForId(id)
        case Err(p) => o == Panicked(p)
        case Ok(s) =>
          match SkeletonizedBytes(old(Latest(state.Model())), s, lib)
          case Err(message) => o == ErrorDialog(message)
          case Ok(bytes) =>
            o == Committed(ImageSnapshot(bytes, SkeletonizeDescription(AlgorithmName(id).value)))
    ensures o.Committed? ==> state.Model() == Push(old(state.Model()), o.snapshot)
    ensures !o.Committed? ==> state.Model() == old(state.Model())
  {
    if !confirmed {
      o := Cancelled;
      return;
    }
    var id := ComboId(activeId);
    if id.Err? {
      o := Panicked(id.error);
      return;
    }
    var skeletonizer := SkeletonizerForId(id.value);
    if skeletonizer.Err? {
      o := Panicked(skeletonizer.error);
      return;
    }
    var latest := state.GetLatestImage();
    var image := lib.decode(latest);
    if image.None? {
      o := ErrorDialog(ReadBytesError);
      return;
    }
    var binary := lib.toBinary(image.value);
    var skeleton := lib.skeletonize(skeletonizer.value, binary);
    var png := lib.encodePng(lib.toRgb(skeleton));
    if png.None? {
      o := ErrorDialog(PngError);
      return;
    }
    var description := SkeletonizeDescription(AlgorithmName(id.value).value);
    state.PushSnapshot(description, png.value);
    o := Committed(ImageSnapshot(png.value, description));
  }

  /** `undo_handler`: removes the top snapshot if there is one, and
      otherwise changes nothing. */
  method UndoHandler(state: AppState) returns (o: Outcome)
    modifies state`snapshots
    ensures old(state.snapshots) == [] ==> o == NothingToUndo && state.Model() == old(state.Model())
    ensures old(state.snapshots) != [] ==>
      o == Undone(old(state.snapshots[|state.snapshots| - 1])) &&
      state.Model() == Pop(old(state.Model())).1
  {
    var top := state.PopSnapshot();
    match top
    case Some(s) =>
      o := Undone(s);
    case None =>
      o := NothingToUndo;
  }

  /** A whole session with a codec that never fails: load an image,
      binarize it with threshold 150, skeletonize it with the first combo
      entry, then undo three times. The current image after each undo is
      the binarized image, then the original, then still the original, and
      the third undo has nothing to undo. */
  method UndoWalkBack(lib: Collaborators, original: seq<byte>) returns (seen: seq<seq<byte>>, last: Outcome)
    requires forall bytes :: lib.decode(bytes).Some?
    requires forall image :: lib.encodePng(image).Some?
    ensures |seen| == 3
    ensures seen[0] == BinarizedBytes(original, 150, lib).value
    ensures seen[1] == original && seen[2] == original
    ensures last == NothingToUndo
  {
    var state := new AppState();
    var o := FileSetHandler(state, FileContents(original));
    assert state.Model() == History(original, []);
    var binarized := BinarizedBytes(original, 150, lib);
    assert binarized.Ok?;
    o := ConvertToBinaryHandler(state, true, 150, lib);
    assert state.Model() == Push(History(original, []), o.snapshot);
    ghost var afterBinarize := state.Model();
    ComboIdOfNumber(0);
    assert NatToString(0) == "0";
    var skeleton := SkeletonizedBytes(binarized.value, RosenfeldSkeletonizer(Eight), lib);
    assert skeleton.Ok?;
    o := SkeletonizeHandler(state, true, Some("0"), lib);
    assert state.Model() == Push(afterBinarize, o.snapshot);
    PushThenPop(afterBinarize, o.snapshot);
    PushThenPop(History(original, []), afterBinarize.snapshots[0]);
    o := UndoHandler(state);
    var first := state.GetLatestImage();
    o := UndoHandler(state);
    var second := state.GetLatestImage();
    last := UndoHandler(state);
    var third := state.GetLatestImage();
    seen := [first, second, third];
  }
}
