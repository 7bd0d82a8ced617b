/**
 * The upload dropzone: a drag flag, and a list of files that drops and selections append to, one
 * index can be removed from, and "Clear all" empties. Every change also reports the new list to the
 * parent through `onFilesSelected`, recorded here as the sequence of lists reported so far.
 */
module Dropzone {

  import opened Strings

  /** A file as the browser reports it; `preview` says whether an object URL was attached. */
  datatype DroppedFile = DroppedFile(name: string, mimeType: string, size: nat, preview: bool)

  /** The drag events the zone listens to, and any other type. */
  datatype DragKind = DragEnter | DragOver | DragLeave | OtherDrag

  /** A preview is attached only to files whose type starts with "image/". */
  function WithPreview(f: DroppedFile): DroppedFile
  {
    if StartsWith(f.mimeType, "image/") then f.(preview := true) else f
  }

  /** `files.map(...)` attaching previews. */
  function WithPreviews(fs: seq<DroppedFile>): seq<DroppedFile>
    decreases |fs|
  {
    if |fs| == 0 then [] else [WithPreview(fs[0])] + WithPreviews(fs[1..])
  }

  /** `files.filter((_, i) => i !== index)`. */
  function DropIndex(fs: seq<DroppedFile>, index: int): seq<DroppedFile>
    decreases |fs|
  {
    if |fs| == 0 then []
    else DropIndex(fs[..|fs| - 1], index) + (if |fs| - 1 == index then [] else [fs[|fs| - 1]])
  }

  /** `files.reduce((sum, file) => sum + file.size, 0)`. */
  function TotalSize(fs: seq<DroppedFile>): nat
    decreases |fs|
  {
    if |fs| == 0 then 0 else TotalSize(fs[..|fs| - 1]) + fs[|fs| - 1].size
  }

  // ---------------------------------------------------------------- laws

  /** Each file keeps its place and its fields; it gains a preview exactly when its type starts with "image/". */
  lemma {:induction false} PreviewsOnlyForImages(fs: seq<DroppedFile>)
    ensures |WithPreviews(fs)| == |fs|
    ensures forall i :: 0 <= i < |fs| ==>
      && WithPreviews(fs)[i].(preview := fs[i].preview) == fs[i]
      && WithPreviews(fs)[i].preview == (fs[i].preview || StartsWith(fs[i].mimeType, "image/"))
    decreases |fs|
  {
    if |fs| > 0 {
      PreviewsOnlyForImages(fs[1..]);
      forall i | 0 < i < |fs|
        ensures WithPreviews(fs)[i] == WithPreviews(fs[1..])[i - 1] && fs[1..][i - 1] == fs[i]
      {
      }
    }
  }

  /** Removing an index in range drops exactly that file; any other index leaves the list as it is. */
  lemma {:induction false} DropIndexRemovesOne(fs: seq<DroppedFile>, index: int)
    ensures 0 <= index < |fs| ==> DropIndex(fs, index) == fs[..index] + fs[index + 1..]
    ensures !(0 <= index < |fs|) ==> DropIndex(fs, index) == fs
    decreases |fs|
  {
    if |fs| > 0 {
      var front := fs[..|fs| - 1];
      DropIndexRemovesOne(front, index);
      if index == |fs| - 1 {
        assert !(0 <= index < |front|);
        assert fs[..index] + fs[index + 1..] == front;
      } else if 0 <= index < |front| {
        assert front[..index] + front[index + 1..] + [fs[|fs| - 1]] == fs[..index] + fs[index + 1..];
      } else {
        assert front + [fs[|fs| - 1]] == fs;
      }
    }
  }

  /** The total of a list that grew at the end is the old total plus the total of what was added. */
  lemma {:induction false} TotalSizeAppend(a: seq<DroppedFile>, b: seq<DroppedFile>)
    ensures TotalSize(a + b) == TotalSize(a) + TotalSize(b)
    decreases |b|
  {
    if |b| == 0 {
      assert a + b == a;
    } else {
      assert (a + b)[..|a + b| - 1] == a + b[..|b| - 1];
      TotalSizeAppend(a, b[..|b| - 1]);
    }
  }

  /** Removing a file lowers the total by exactly that file's size. */
  lemma TotalAfterRemove(fs: seq<DroppedFile>, index: nat)
    requires index < |fs|
    ensures TotalSize(DropIndex(fs, index)) + fs[index].size == TotalSize(fs)
  {
    var a, x, b := fs[..index], [fs[index]], fs[index + 1..];
    DropIndexRemovesOne(fs, index);
    assert DropIndex(fs, index) == a + b;
    assert fs == (a + x) + b;
    TotalSizeAppend(a, b);
    TotalSizeAppend(a + x, b);
    TotalSizeAppend(a, x);
    assert x[..0] == [];
    assert TotalSize(x) == fs[index].size;
  }

  // ---------------------------------------------------------------- the component

  class Zone {
    var isDragActive: bool
    var files: seq<DroppedFile>
    /** Every list passed to `onFilesSelected`, oldest first. */
    var reported: seq<seq<DroppedFile>>

    constructor ()
      ensures !isDragActive && files == [] && reported == []
    {
      isDragActive, files, reported := false, [], [];
    }

    /** `handleDrag`: enter and over turn the flag on, leave turns it off, anything else keeps it. */
    method Drag(kind: DragKind)
      modifies this
      ensures files == old(files) && reported == old(reported)
      ensures isDragActive == match kind
        case DragEnter => true
        case DragOver => true
        case DragLeave => false
        case OtherDrag => old(isDragActive)
    {
      if kind == DragEnter || kind == DragOver {
        isDragActive := true;
      } else if kind == DragLeave {
        isDragActive := false;
      }
    }

    /** Append new files (with previews) and report the whole list; an empty batch changes nothing. */
    method Add(added: seq<DroppedFile>)
      modifies this
      ensures isDragActive == old(isDragActive)
      ensures |added| == 0 ==> files == old(files) && reported == old(reported)
      ensures |added| > 0 ==>
        files == old(files) + WithPreviews(added) && reported == old(reported) + [old(files) + WithPreviews(added)]
    {
      if |added| > 0 {
        // `Object.assign` attaches the preview to the same file objects the callback then receives.
        files := files + WithPreviews(added);
        reported := reported + [files];
      }
    }

    /** `handleDrop`: the flag goes off, then the dropped files are added. */
    method Drop(dropped: seq<DroppedFile>)
      modifies this
      ensures !isDragActive
      ensures |dropped| == 0 ==> files == old(files) && reported == old(reported)
      ensures |dropped| > 0 ==>
        files == old(files) + WithPreviews(dropped) && reported == old(reported) + [old(files) + WithPreviews(dropped)]
    {
      isDragActive := false;
      Add(dropped);
    }

    /** `removeFile(index)`. */
    method Remove(index: int)
      modifies this
      ensures isDragActive == old(isDragActive)
      ensures files == DropIndex(old(files), index) && reported == old(reported) + [files]
    {
      files := DropIndex(files, index);
      reported := reported + [files];
    }

    /** "Clear all". */
    method Clear()
      modifies this
      ensures isDragActive == old(isDragActive)
      ensures files == [] && reported == old(reported) + [[]]
    {
      files := [];
      reported := reported + [[]];
    }

    /** The total the footer shows. */
    function Total(): nat
      reads this
    {
      TotalSize(files)
    }
  }
}
