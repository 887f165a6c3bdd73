/** The data part of the interactive front end's `AppState`: the originally
    loaded image and a last-in-first-out stack of snapshots, one per applied
    transformation. The widgets it also holds are not part of this model. */
module GtkAppState {
  import opened RustStd

  /** One committed transformation result: the encoded image and a
      description of the operation that produced it. */
  datatype ImageSnapshot = ImageSnapshot(bytes: seq<byte>, description: string)

  /** The history as a value: the original image and the snapshot stack,
      whose top is its last element. */
  datatype History = History(original: seq<byte>, snapshots: seq<ImageSnapshot>)

  /** The image the user sees and saves: the top snapshot's bytes, or the
      original image when no snapshot is left. */
  function Latest(h: History): seq<byte> {
    if |h.snapshots| > 0 then h.snapshots[|h.snapshots| - 1].bytes else h.original
  }

  /** Commit a snapshot on top of the stack. */
  function Push(h: History, s: ImageSnapshot): (r: History)
    ensures r.original == h.original
    ensures |r.snapshots| == |h.snapshots| + 1 && r.snapshots[..|h.snapshots|] == h.snapshots
    ensures Latest(r) == s.bytes
  {
    History(h.original, h.snapshots + [s])
  }

  /** Take the top snapshot off the stack, if there is one; the original
      image is never popped. */
  function Pop(h: History): (r: (Option<ImageSnapshot>, History))
    ensures r.1.original == h.original
    ensures h.snapshots == [] ==> r == (None, h) && Latest(r.1) == h.original
    ensures h.snapshots != [] ==>
      r.0 == Some(h.snapshots[|h.snapshots| - 1]) && Push(r.1, r.0.value) == h
  {
    if h.snapshots == [] then (None, h)
    else (Some(h.snapshots[|h.snapshots| - 1]), History(h.original, h.snapshots[..|h.snapshots| - 1]))
  }

  /** Load a new image: every snapshot goes, the new bytes become the original. */
  function SetOriginal(h: History, bytes: seq<byte>): (r: History)
    ensures r.snapshots == [] && Latest(r) == bytes
  {
    History(bytes, [])
  }

  /** Push then pop gives back the pushed snapshot and the earlier history. */
  lemma PushThenPop(h: History, s: ImageSnapshot)
    ensures Pop(Push(h, s)) == (Some(s), h)
  {
  }

  /** What can happen to the history: a load, a committed transformation, an undo. */
  datatype Event = Load(bytes: seq<byte>) | Commit(snapshot: ImageSnapshot) | Undo

  function Apply(h: History, e: Event): History {
    match e
    case Load(bytes) => SetOriginal(h, bytes)
    case Commit(s) => Push(h, s)
    case Undo => Pop(h).1
  }

  /** The history after a sequence of events, first event first. */
  function Run(h: History, es: seq<Event>): History
    decreases |es|
  {
    if es == [] then h else Run(Apply(h, es[0]), es[1..])
  }

  function Commits(ss: seq<ImageSnapshot>): (es: seq<Event>)
    ensures |es| == |ss|
    ensures forall i :: 0 <= i < |ss| ==> es[i] == Commit(ss[i])
  {
    if ss == [] then [] else [Commit(ss[0])] + Commits(ss[1..])
  }

  function Undos(n: nat): (es: seq<Event>)
    ensures |es| == n
    ensures forall i :: 0 <= i < n ==> es[i] == Undo
  {
    if n == 0 then [] else [Undo] + Undos(n - 1)
  }

  /** Strict LIFO: committing any snapshots and then undoing as many times
      restores the history exactly, whatever happens afterwards. */
  lemma {:induction false} UndoRevertsCommits(h: History, ss: seq<ImageSnapshot>, rest: seq<Event>)
    ensures Run(h, Commits(ss) + Undos(|ss|) + rest) == Run(h, rest)
    decreases |ss|
  {
    if ss != [] {
      var n := |ss| - 1;
      var es := Commits(ss) + Undos(|ss|) + rest;
      assert Undos(|ss|) == Undos(n) + [Undo];
      assert es[0] == Commit(ss[0]);
      assert es[1..] == Commits(ss[1..]) + Undos(n) + ([Undo] + rest);
      var pushed := Push(h, ss[0]);
      assert Run(h, es) == Run(pushed, es[1..]);
      UndoRevertsCommits(pushed, ss[1..], [Undo] + rest);
      assert ([Undo] + rest)[1..] == rest;
      assert Run(pushed, [Undo] + rest) == Run(Pop(pushed).1, rest);
      PushThenPop(h, ss[0]);
    } else {
      assert Commits(ss) + Undos(|ss|) + rest == rest;
    }
  }

  /** Only a load replaces the original image: commits and undos keep it. */
  lemma {:induction false} OnlyLoadChangesOriginal(h: History, es: seq<Event>)
    requires forall i :: 0 <= i < |es| ==> !es[i].Load?
    ensures Run(h, es).original == h.original
    decreases |es|
  {
    if es != [] {
      OnlyLoadChangesOriginal(Apply(h, es[0]), es[1..]);
    }
  }

  /** Every snapshot on the stack was there at the start or was committed by
      one of the events. */
  lemma {:induction false} SnapshotsComeFromCommits(h: History, es: seq<Event>)
    ensures forall s :: s in Run(h, es).snapshots ==> s in h.snapshots || Commit(s) in es
    decreases |es|
  {
    if es != [] {
      var h' := Apply(h, es[0]);
      SnapshotsComeFromCommits(h', es[1..]);
      assert forall s :: s in h'.snapshots ==> s in h.snapshots || es[0] == Commit(s);
      assert forall e :: e in es[1..] ==> e in es;
    }
  }

  /** Running a sequence of events in two parts is running it at once. */
  lemma {:induction false} RunSplit(h: History, es: seq<Event>, k: nat)
    requires k <= |es|
    ensures Run(h, es) == Run(Run(h, es[..k]), es[k..])
    decreases k
  {
    if k > 0 {
      assert es[..k][0] == es[0] && es[..k][1..] == es[1..][..k - 1];
      RunSplit(Apply(h, es[0]), es[1..], k - 1);
      assert es[1..][k - 1..] == es[k..];
    }
  }

  /** A load starts afresh: after the last load, the original is the loaded
      image and every snapshot on the stack was committed after that load,
      so no snapshot derived from a discarded original survives. */
  lemma LastLoadDecides(h: History, es: seq<Event>, i: nat)
    requires i < |es| && es[i].Load?
    requires forall j :: i < j < |es| ==> !es[j].Load?
    ensures Run(h, es).original == es[i].bytes
    ensures forall s :: s in Run(h, es).snapshots ==> Commit(s) in es[i + 1..]
  {
    RunSplit(h, es, i + 1);
    var loaded := Run(h, es[..i + 1]);
    RunSplit(h, es[..i + 1], i);
    assert es[..i + 1][i..] == [es[i]];
    assert loaded == SetOriginal(Run(h, es[..i]), es[i].bytes);
    OnlyLoadChangesOriginal(loaded, es[i + 1..]);
    SnapshotsComeFromCommits(loaded, es[i + 1..]);
  }

  /** The `AppState` data fields, updated in place by the event handlers. */
  class AppState {
    var imageBytes: seq<byte>
    var snapshots: seq<ImageSnapshot>

    /** The history this object holds. */
    function Model(): History
      reads this
    {
      History(imageBytes, snapshots)
    }

    /** A fresh state: no original image yet and no snapshots. */
    constructor ()
      ensures Model() == History([], [])
    {
      imageBytes := [];
      snapshots := [];
    }

    /** `get_latest_image`: the top snapshot's bytes, or the original image
        when the stack is empty. */
    method GetLatestImage() returns (image: seq<byte>)
      ensures image == Latest(Model())
      ensures snapshots != [] ==> image == snapshots[|snapshots| - 1].bytes
      ensures snapshots == [] ==> image == imageBytes
    {
      if |snapshots| > 0 {
        image := snapshots[|snapshots| - 1].bytes;
      } else {
        image := imageBytes;
      }
    }

    /** `push_snapshot`: one more snapshot on top; the original image is
        outside this method's frame. */
    method PushSnapshot(description: string, bytes: seq<byte>)
      modifies this`snapshots
      ensures Model() == Push(old(Model()), ImageSnapshot(bytes, description))
      ensures snapshots == old(snapshots) + [ImageSnapshot(bytes, description)]
    {
      snapshots := snapshots + [ImageSnapshot(bytes, description)];
    }

    /** `pop_snapshot`: remove and return the top snapshot, or `None` and no
        change when there is none; the original image is outside the frame. */
    method PopSnapshot() returns (top: Option<ImageSnapshot>)
      modifies this`snapshots
      ensures (top, Model()) == Pop(old(Model()))
    {
      if |snapshots| == 0 {
        top := None;
      } else {
        top := Some(snapshots[|snapshots| - 1]);
        snapshots := snapshots[..|snapshots| - 1];
      }
    }

    /** `set_original_image`: clear every snapshot and replace the original. */
    method SetOriginalImage(bytes: seq<byte>)
      modifies this
      ensures Model() == SetOriginal(old(Model()), bytes)
    {
      snapshots := [];
      imageBytes := bytes;
    }
  }
}
