/**
 * The admin thumbnail grid: each file of the listing gets a type, 'image' or 'file', from the text
 * after the last '.' of its name, and a tile is highlighted when its path equals the selected file's.
 * The type rule differs from the parser's image rule in two places.
 */
module ThumbnailGrid {

  import opened Wrappers
  import opened Strings
  import ListFiles
  import Records
  import GalleryParser

  const ImageTypes := ["jpg", "jpeg", "png", "gif", "webp", "bmp"]

  /** `fileName.split('.').pop()?.toLowerCase()` tested against the list; an empty extension is falsy. */
  function FileType(fileName: string): string
  {
    var ext := ToLower(LastSegment(fileName, '.'));
    if ext != "" && ext in ImageTypes then "image" else "file"
  }

  /** A listing entry with its type. */
  datatype Tile = Tile(entry: ListFiles.Entry, kind: string)

  function Typed(entries: seq<ListFiles.Entry>): seq<Tile>
    decreases |entries|
  {
    if |entries| == 0 then [] else [Tile(entries[0], FileType(entries[0].fileName))] + Typed(entries[1..])
  }

  /** The grid's state once the listing request has ended. */
  datatype Grid = Grid(files: seq<Tile>, loading: bool, error: Option<string>)

  /** How the listing request ended: a reply, or a throw. */
  datatype Fetch = Replied(response: ListFiles.Response) | Threw

  function Loaded(f: Fetch): Grid
  {
    match f
    case Threw => Grid([], false, Some("An error occurred while loading files"))
    case Replied(r) =>
      if r.success && r.files.Some? then Grid(Typed(r.files.value), false, None)
      else Grid([], false, Some(if r.message.Some? && r.message.value != "" then r.message.value else "Failed to load files"))
  }

  /** `selectedFile?.b2Path === file.b2Path`: with no selection the left side is `undefined`. */
  predicate Highlighted(selected: Option<ListFiles.Entry>, t: Tile)
  {
    (if selected.Some? then selected.value.b2Path else None) == t.entry.b2Path
  }

  // ---------------------------------------------------------------- laws

  /** Every file gets exactly one type, in listing order. */
  lemma {:induction false} TypedKeepsOrder(entries: seq<ListFiles.Entry>)
    ensures |Typed(entries)| == |entries|
    ensures forall i :: 0 <= i < |entries| ==>
      Typed(entries)[i].entry == entries[i] && Typed(entries)[i].kind == FileType(entries[i].fileName)
    decreases |entries|
  {
    if |entries| > 0 {
      TypedKeepsOrder(entries[1..]);
      forall i | 0 < i < |entries|
        ensures Typed(entries)[i] == Typed(entries[1..])[i - 1] && entries[1..][i - 1] == entries[i]
      {
      }
    }
  }

  /** A name is an image exactly when its lower-cased last '.'-segment is one of the six listed extensions. */
  lemma FileTypeRule(fileName: string)
    ensures FileType(fileName) == "image" <==> ToLower(LastSegment(fileName, '.')) in ImageTypes
    ensures FileType(fileName) == "image" || FileType(fileName) == "file"
  {
  }

  /** The listed types are non-empty, lower-case and free of '.'. */
  lemma ImageTypesShape()
    ensures forall e :: e in ImageTypes ==> e != "" && ToLower(e) == e && '.' !in e
  {
    assert ToLower("jpg") == "jpg";
    assert ToLower("jpeg") == "jpeg";
    assert ToLower("png") == "png";
    assert ToLower("gif") == "gif";
    assert ToLower("webp") == "webp";
    assert ToLower("bmp") == "bmp";
  }

  /** A name with no '.' is compared whole: a bare "png" is an image here, though the parser's rule says no. */
  lemma NoDotComparedWhole(name: string)
    requires name in ImageTypes
    ensures FileType(name) == "image"
    ensures !GalleryParser.IsImageFile(name)
  {
    ImageTypesShape();
    SplitOfSeparatorFree(name, '.');
    GalleryParser.NoDotIsNoImage(name);
  }

  /** A '.tiff' name is a file here, though the parser counts it as an image. */
  lemma TiffIsFile(stem: string)
    ensures FileType(stem + ".tiff") == "file"
    ensures GalleryParser.IsImageFile(stem + ".tiff")
  {
    TiffLastSegment(stem);
    assert ToLower("tiff") == "tiff";
    GalleryParser.ListedExtensionIsImage(stem, ".tiff");
  }

  lemma TiffLastSegment(stem: string)
    ensures LastSegment(stem + ".tiff", '.') == "tiff"
  {
    assert stem + ".tiff" == stem + ['.'] + "tiff";
    SplitAppend(stem, "tiff", '.');
    SplitOfSeparatorFree("tiff", '.');
  }

  /**
   * With no selection, exactly the tiles without a path are highlighted; with one, exactly the tiles
   * whose path equals its path.
   */
  lemma HighlightRule(selected: Option<ListFiles.Entry>, t: Tile)
    ensures selected.None? ==> (Highlighted(selected, t) <==> t.entry.b2Path.None?)
    ensures selected.Some? ==> (Highlighted(selected, t) <==> t.entry.b2Path == selected.value.b2Path)
  {
  }

  /**
   * Against the listing endpoint: a successful listing gives one tile per listed object, a missing
   * password or a failed query shows the endpoint's message, and loading is over either way.
   */
  lemma GridOfListing(adminPassword: Option<string>, listing: Result<seq<Records.ListedObject>, string>,
                      rows: Result<seq<Records.Photo>, string>)
    ensures var g := Loaded(Replied(ListFiles.List(adminPassword, listing, rows)));
      && !g.loading
      && (g.error.None? <==> ListFiles.List(adminPassword, listing, rows).success)
      && (g.error.None? ==> |g.files| == |listing.value|)
      && (g.error.Some? ==> g.error.value == ListFiles.List(adminPassword, listing, rows).message.value)
  {
    ListFiles.ListOutcome(adminPassword, listing, rows);
    var r := ListFiles.List(adminPassword, listing, rows);
    if r.success {
      TypedKeepsOrder(r.files.value);
    }
  }
}
