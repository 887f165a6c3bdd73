# improc-petrsu-gtk: transformation history, event handlers and command-line settings

A Dafny model of the core of improc-petrsu-gtk, a small Rust program that loads a
raster image, binarizes it by threshold or skeletonizes it with one of three
algorithms (Rosenfeld, Eberly, Zhang-Suen), and lets the user step back through
the applied transformations before saving.

- `app_state.dfy` (module `GtkAppState`): the data part of the interactive
  front end's `AppState`. A class holds the original image bytes and a
  last-in-first-out stack of snapshots (encoded bytes plus a description).
  `Model()` gives its value as a `History` datatype. The methods
  `GetLatestImage`, `PushSnapshot`, `PopSnapshot` and `SetOriginalImage` are
  proved against the functions `Latest`, `Push`, `Pop` and `SetOriginal`.
  `PushSnapshot` and `PopSnapshot` may modify only the `snapshots` field, so
  only `SetOriginalImage` can change the original image. Lemmas over
  sequences of events (load, commit, undo) prove strict LIFO undo, that only
  a load replaces the original, and that after a load no older snapshot survives.
- `gtk_ui.dfy` (module `GtkUi`): the load, convert-to-binary, skeletonize and
  undo handlers, as methods on an `AppState`. The dialog answers are
  parameters: whether the dialog was confirmed, the spin value, and the
  combo box's active id. So is the result of choosing and reading a file.
  The image codec and the image-processing library are injected as a
  `Collaborators` value of functions; decoding and PNG encoding may fail.
  Each handler's contract covers every exit. For the convert-to-binary and
  skeletonize handlers these are cancelled, panic, error dialog, or exactly
  one committed snapshot, and the history changes only in the last case. The
  load handler replaces the history only when a file was read, and the undo
  handler removes at most the top snapshot.
- `skeletonize_config.dfy`, `skeletonize_handler.dfy`,
  `convert_to_binary_config.dfy`: the settings of the two command-line
  subcommands, read from the argument matches (a map from argument name to
  text). This covers the algorithm and adjacency-mode keywords, the threshold
  parse with its fallback of 150, and the skeletonizer selection that comes
  before any file is opened.
- `rust_std.dfy` (module `RustStd`): the Rust library behaviour these rely
  on. `str::parse` for unsigned integers takes an optional leading '+', then
  ASCII digits, and fails on overflow. The decimal display of a whole number
  is also here. `clap.dfy` and `strategies.dfy` hold the argument matches and
  the skeletonizer identities.

A `panic!` or a failed `unwrap` is an outcome in this model (`Panic`), with
the history as it was at that point. The program itself aborts there.

Three behaviours of the code worth noting, followed as written:

- An out-of-range threshold in the interactive path panics; it is not
  reported as a recoverable validation error.
- A combo id other than 0, 1 or 2 panics.
- A command-line Rosenfeld run without an adjacency mode panics in `unwrap`.

The interactive dialog starts at threshold 125 (src/gtk_ui/mod.rs:123), but
the handler uses whatever value the user confirms, so the model takes that
value as a parameter.

## Model

| member | source | states |
|---|---|---|
| `GtkAppState.AppState.constructor` | src/gtk_ui/app_state.rs:87-88 | a fresh state has an empty original image and no snapshots |
| `GtkAppState.AppState.GetLatestImage` | src/gtk_ui/app_state.rs:92-100 | returns the top snapshot's bytes when the stack is non-empty, otherwise the original image bytes |
| `GtkAppState.AppState.PushSnapshot` | src/gtk_ui/app_state.rs:102-106 | appends exactly one snapshot at the tail. Its frame excludes the original image, and the new history is `Push` of the old one |
| `GtkAppState.AppState.PopSnapshot` | src/gtk_ui/app_state.rs:108-110 | returns and removes the top snapshot, or returns None and changes nothing. Its frame excludes the original image |
| `GtkAppState.AppState.SetOriginalImage` | src/gtk_ui/app_state.rs:112-115 | clears every snapshot and replaces the original, so the latest image is the new bytes |
| `GtkAppState.Push` | src/gtk_ui/app_state.rs:102-106 | keeps the original and every earlier snapshot, adds exactly one, and makes the latest image the pushed bytes |
| `GtkAppState.Pop` | src/gtk_ui/app_state.rs:108-110 | on an empty stack: None, no change, and the latest image stays the original. Otherwise it returns the most recent snapshot, and pushing it back restores the history |
| `GtkAppState.SetOriginal` | src/gtk_ui/app_state.rs:112-115 | the stack is empty and the latest image is the new original |
| `GtkAppState.PushThenPop` | src/gtk_ui/app_state.rs:102-110 | a pop right after a push returns the pushed snapshot and restores the previous history, and so the previous latest image |
| `GtkAppState.UndoRevertsCommits` | src/gtk_ui/app_state.rs:102-110 | strict LIFO: any number of commits followed by as many undos restores the history exactly |
| `GtkAppState.OnlyLoadChangesOriginal` | src/gtk_ui/app_state.rs:102-115 | no sequence of commits and undos changes the original image |
| `GtkAppState.SnapshotsComeFromCommits` | src/gtk_ui/app_state.rs:102-115 | every snapshot on the stack was there at the start or was committed by some event |
| `GtkAppState.LastLoadDecides` | src/gtk_ui/app_state.rs:112-115 | after the last load, the original image is the loaded bytes, and every snapshot on the stack was committed after that load |
| `GtkUi.FileSetHandler` | src/gtk_ui/mod.rs:87-118 | a file that was read becomes the new original with an empty stack. If no file was chosen, or it could not be opened or read, the user sees that error and the history is unchanged |
| `GtkUi.ConvertToBinaryHandler` | src/gtk_ui/mod.rs:122-163 | unconfirmed: cancelled, no change. Threshold outside [0,255]: panic, whatever the image. Decode or encode failure: that error message, no change. Otherwise exactly one pushed snapshot, holding the encoded result and described "Converted to binary with threshold: t" |
| `GtkUi.SkeletonizeHandler` | src/gtk_ui/mod.rs:165-233 | unconfirmed: cancelled, no change. Missing or unparsable id, or an id above 2: panic before the image is read. Decode or encode failure: error message, no change. Otherwise exactly one pushed snapshot whose description names the algorithm applied |
| `GtkUi.UndoHandler` | src/gtk_ui/mod.rs:235-243 | removes the top snapshot and reports it, or reports nothing to undo and leaves the state unchanged |
| `GtkUi.ComboId` | src/gtk_ui/mod.rs:171-176 | an absent active id panics in `unwrap`. A present one gives exactly the number it parses to as a `u8` (at most 255), and panics in `unwrap` when it does not parse |
| `GtkUi.ComboIdOfNumber` | src/gtk_ui/mod.rs:171-176 | every `u8` written in decimal is read back as itself |
| `GtkUi.SkeletonizerForId` | src/gtk_ui/mod.rs:176-184 | id 0 selects Rosenfeld with eight-adjacency, 1 selects Eberly and 2 selects Zhang-Suen. Any other id panics with "Unknow skeletonizer value!" |
| `GtkUi.AlgorithmName` | src/gtk_ui/mod.rs:214-219 | defined for exactly the ids that select a skeletonizer. "Rosenfeld", "Eberly" and "Zhang Suen" each name exactly the skeletonizer selected for that id |
| `GtkUi.ThresholdInDescription` | src/gtk_ui/mod.rs:154-157 | the threshold can be read back from the binarization description, so distinct thresholds give distinct descriptions |
| `GtkUi.UndoWalkBack` | src/gtk_ui/mod.rs:235-243 | with a codec that never fails: load, binarize at 150, skeletonize, then undo three times. The images seen are the binarized image, then the original, then the original again, and the third undo finds nothing to undo |
| `CliSkeletonizeConfig.ParseAlgorithm` | src/cli/skeletonize_handler/skeletonize_config.rs:39-44 | "Eberly", "Rosenfeld" and "ZhangSuen" map to their variants by exact match. A result always spells back to the input text, and any other text panics with "Unknown algorithm" |
| `CliSkeletonizeConfig.ParseAdjacencyMode` | src/cli/skeletonize_handler/skeletonize_config.rs:45-52 | an absent argument gives None. "Four" and "Eight" give their modes, and any other present text panics with "Unknown adjacency mode" |
| `CliSkeletonizeConfig.New` | src/cli/skeletonize_handler/skeletonize_config.rs:36-60 | succeeds exactly when the three required arguments are present and both keywords parse. The file names are copied unchanged. The mode depends only on the adjacency-mode argument and is present exactly when that argument is given. A missing required argument panics in `unwrap`. Otherwise an unknown algorithm panics with "Unknown algorithm", before the mode is looked at, and an unknown mode panics with "Unknown adjacency mode" |
| `CliSkeletonizeHandler.SelectSkeletonizer` | src/cli/skeletonize_handler/mod.rs:38-42 | ZhangSuen selects Zhang-Suen and Eberly selects Eberly. Rosenfeld selects Rosenfeld with exactly the configured mode, and fails in `unwrap` exactly when no mode is configured |
| `CliSkeletonizeHandler.Execute` | src/cli/skeletonize_handler/mod.rs:36-45 | the I/O stage gets a job only when selection succeeds, so a missing mode fails before any file is opened. The job carries the selected skeletonizer and the unchanged file names. A failure is always the `unwrap` panic on the missing mode |
| `CliSkeletonizeHandler.RosenfeldNeedsMode` | src/cli/skeletonize_handler/mod.rs:38-42 | from the command line with "Rosenfeld": execution passes selection exactly when an adjacency mode was given, and then uses that mode |
| `CliConvertToBinaryConfig.New` | src/cli/convert_to_binary_handler/convert_to_binary_config.rs:26-43 | succeeds exactly when the three arguments are present, with the file names copied unchanged. The threshold is the parsed `u32` when the text parses, and 150 otherwise |
| `CliConvertToBinaryConfig.WrittenThreshold` | src/cli/convert_to_binary_handler/convert_to_binary_config.rs:29-36 | a decimal number that fits a `u32` is kept as written, with no check against 255, so 300 and 9999 are kept. A larger number falls back to 150 |
| `CliConvertToBinaryConfig.MalformedThreshold` | src/cli/convert_to_binary_handler/convert_to_binary_config.rs:29-36 | empty text, or text whose first character is neither a digit nor '+' (a '-', any white space, any other character), or whose last character is not a digit, yields exactly 150 |
| `RustStd.ParseUnsigned` | src/cli/convert_to_binary_handler/convert_to_binary_config.rs:29 | succeeds exactly on an optional '+' followed by at least one digit whose value fits the type's maximum, and then gives the number those digits write. So "+" alone, '-', white space, other characters and overflow all fail |
| `RustStd.NatToString` | src/gtk_ui/mod.rs:155 | the decimal form is non-empty, digits only, with no leading zero except for zero itself |
| `RustStd.ParseNatToString` | src/cli/convert_to_binary_handler/convert_to_binary_config.rs:29-30 | parsing the decimal form of a number gives the number when it fits the type, and fails otherwise |

## Left out

- GTK widgets, dialogs, the error dialog, the notebook page flip, and `update_image` (pixbuf scaling and its own error dialog, which does not touch the history). Dialog answers are parameters.
- `save_handler` and `save_image` (creating a new file, writing it and syncing it): file-system I/O that reads the latest image but never changes the history.
- Reading the chosen file in `file_set_handler`: only its result is modelled (`FileChoice`).
- The `image` crate's decoding and PNG encoding, and the `improc_petrsu` thresholding, binarization and skeletonization: external libraries, injected as functions whose results are unconstrained except that decoding and encoding may fail.
- GtkUi.ConvertToBinaryHandler: the spin value is taken as a whole number. The truncation of a fractional value by `as u32` and the float formatting of such a value in the description are not modelled. For a whole number, the description's decimal form is the one Rust prints for the float.
- Shared ownership through `Rc` and `RefCell` across the callbacks: the model has one owned `AppState` per handler call.
- Process termination: a panic is returned as an outcome rather than aborting.
- The command-line I/O: the rest of `SkeletonizeHandler::execute` (opening, converting, skeletonizing and saving, with exit status 1 on failure), `ConvertToBinaryHandler::execute`, subcommand dispatch in src/cli/mod.rs, and the argument-count switch in src/main.rs. These are I/O plumbing with no logic of their own.
- clap's own validation of required arguments: the model assumes nothing about which arguments are present, and a missing one panics in `unwrap` as the code does.
- Logging (`info!`, `println!`, `eprintln!`), including the warning printed when the threshold falls back to 150.
