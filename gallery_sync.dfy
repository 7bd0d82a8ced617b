/**
 * The older storage-to-database sync: every gallery folder the parser finds is looked up by folder
 * name and created when the lookup gives nothing, and every photo the parser lists for it is
 * inserted, with no existence check.
 */
module GallerySync {

  import opened Wrappers
  import opened Strings
  import opened Records
  import opened Db
  import opened GalleryParser
  import B2

  // ---------------------------------------------------------------- the new gallery's title and date

  /** `[0-9]` */
  predicate DecimalDigit(c: char)
  {
    '0' <= c <= '9'
  }

  /** `[0-9]{4}-[0-9]{2}-[0-9]{2}` at the start. */
  predicate SyncDate(s: string)
  {
    && |s| >= 10
    && DecimalDigit(s[0]) && DecimalDigit(s[1]) && DecimalDigit(s[2]) && DecimalDigit(s[3]) && s[4] == '-'
    && DecimalDigit(s[5]) && DecimalDigit(s[6]) && s[7] == '-' && DecimalDigit(s[8]) && DecimalDigit(s[9])
  }

  /**
   * The title and event date given to a gallery the sync creates: with a match of
   * `^([0-9]{4}-[0-9]{2}-[0-9]{2})\s+(.+)$` the trimmed group 2 and the date, else the folder name and today.
   */
  function NewGallery(folder: string, today: string): (string, string)
  {
    if !SyncDate(folder) then (folder, today)
    else
      var rest := folder[10..];
      match GreedyTail(rest, SpaceRun(rest))
      case None => (folder, today)
      case Some(g2) => (Trim(g2), folder[..10])
  }

  // ---------------------------------------------------------------- inputs

  /**
   * What the sync reads besides the database: the listing behind `getGalleriesFromB2`, the listing
   * behind `getPhotosForGallery` for each folder, the object metadata and today's date.
   */
  datatype Source = Source(
    env: B2.Env,
    listing: Result<ListResponse, string>,
    folderListing: string -> Result<ListResponse, string>,
    metadata: map<string, ObjectMetadata>,
    today: string)

  // ---------------------------------------------------------------- one run as a function of the tables

  /** The columns `createPhoto` receives: the database gallery id and the photo's key, URL and size, no user. */
  function DraftOf(gid: string, p: Photo): PhotoDraft
  {
    PhotoDraft(gid, None, p.b2_file_key, p.public_url, p.width, p.height)
  }

  /** Every photo is attempted in order; a failed insert is ignored. */
  function AddPhotos(t: Tables, f: Faults, gid: string, ps: seq<Photo>): Tables
    decreases |ps|
  {
    if |ps| == 0 then t
    else AddPhoto(AddPhotos(t, f, gid, ps[..|ps| - 1]), f, DraftOf(gid, ps[|ps| - 1])).0
  }

  /** The gallery row's id: the row found by folder name, or a new row when the lookup gives no row or fails. */
  function DbGallery(t: Tables, f: Faults, folder: string, today: string): (Tables, Result<string, string>)
  {
    var lookup := GalleryByFolder(t, f, folder);
    if lookup.Found? then (t, Ok(lookup.row.id))
    else
      var (title, eventDate) := NewGallery(folder, today);
      var (u, r) := AddGallery(t, f, title, eventDate, folder);
      (u, if r.Ok? then Ok(r.value.id) else Err(r.error))
  }

  /** One gallery: its row, then its photos; a failure to create the row or to list the photos moves on. */
  function SyncGallery(t: Tables, f: Faults, src: Source, g: GalleryFolder): Tables
  {
    var (u, gid) := DbGallery(t, f, g.folderName, src.today);
    if gid.Err? then u
    else
      match PhotosForGallery(src.folderListing(g.folderName), src.env, src.metadata)
      case Err(_) => u
      case Ok(ps) => AddPhotos(u, f, gid.value, ps)
  }

  function SyncGalleries(t: Tables, f: Faults, src: Source, gs: seq<GalleryFolder>): Tables
    decreases |gs|
  {
    if |gs| == 0 then t
    else SyncGallery(SyncGalleries(t, f, src, gs[..|gs| - 1]), f, src, gs[|gs| - 1])
  }

  /** `syncGalleriesToDatabase`: the new tables, and the rethrown error when the galleries cannot be listed. */
  function SyncToDatabase(t: Tables, f: Faults, src: Source): (Tables, Option<string>)
  {
    match GalleriesFromB2(src.listing, src.env, src.today)
    case Err(m) => (t, Some(m))
    case Ok(gs) => (SyncGalleries(t, f, src, gs), None)
  }

  // ---------------------------------------------------------------- the run over the database

  method CreatePhotos(db: Database, gid: string, ps: seq<Photo>)
    modifies db
    ensures db.Snapshot() == AddPhotos(old(db.Snapshot()), db.faults, gid, ps)
  {
    ghost var t := db.Snapshot();
    var i := 0;
    while i < |ps|
      invariant 0 <= i <= |ps|
      invariant db.Snapshot() == AddPhotos(t, db.faults, gid, ps[..i])
    {
      assert ps[..i + 1][..i] == ps[..i];
      var _ := db.InsertPhoto(DraftOf(gid, ps[i]));
      i := i + 1;
    }
    assert ps[..i] == ps;
  }

  method FindOrCreateGallery(db: Database, folder: string, today: string) returns (gid: Result<string, string>)
    modifies db
    ensures (db.Snapshot(), gid) == DbGallery(old(db.Snapshot()), db.faults, folder, today)
  {
    var existing := db.FindGallery(folder);
    if existing.Found? {
      return Ok(existing.row.id);
    }
    var (title, eventDate) := NewGallery(folder, today);
    var created := db.InsertGallery(title, eventDate, folder);
    if created.Err? {
      return Err(created.error);
    }
    gid := Ok(created.value.id);
  }

  method SyncOneGallery(db: Database, src: Source, g: GalleryFolder)
    modifies db
    ensures db.Snapshot() == SyncGallery(old(db.Snapshot()), db.faults, src, g)
  {
    var gid := FindOrCreateGallery(db, g.folderName, src.today);
    if gid.Err? {
      return;
    }
    var photos := GetPhotosForGallery(src.folderListing(g.folderName), src.env, src.metadata);
    if photos.Err? {
      return;
    }
    CreatePhotos(db, gid.value, photos.value);
  }

  method SyncGalleriesToDatabase(db: Database, src: Source) returns (err: Option<string>)
    modifies db
    ensures (db.Snapshot(), err) == SyncToDatabase(old(db.Snapshot()), db.faults, src)
  {
    var galleries := GetGalleriesFromB2(src.listing, src.env, src.today);
    if galleries.Err? {
      return Some(galleries.error);
    }
    var gs := galleries.value;
    ghost var t := db.Snapshot();
    var i := 0;
    while i < |gs|
      invariant 0 <= i <= |gs|
      invariant db.Snapshot() == SyncGalleries(t, db.faults, src, gs[..i])
    {
      assert gs[..i + 1][..i] == gs[..i];
      SyncOneGallery(db, src, gs[i]);
      i := i + 1;
    }
    assert gs[..i] == gs;
    err := None;
  }
}
