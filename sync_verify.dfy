/**
 * The storage-to-database reconciliation of the admin sync endpoint: the forced sync (POST), which
 * walks the listing gallery by gallery and object by object doing find-or-create, and the read-only
 * consistency analysis (GET).
 */
module SyncVerify {

  import opened Wrappers
  import opened Strings
  import opened Records
  import opened Db
  import opened Keys
  import B2

  /** The marker object name a bucket uses for an otherwise empty folder. */
  const Placeholder := ".bzEmpty"

  /** The hard-coded prefix of a gallery's objects (it does not follow the configured base path). */
  const SyncRoot := "B2 LuxSync"

  /** A listed object as the handler keeps it: `Key || ''`, `Size || 0` and `LastModified`. */
  datatype Entry = Entry(fileName: string, size: nat, lastModified: Option<nat>)

  /** The listing mapped to entries, dropping those whose file name is empty. */
  function Entries(objects: seq<ListedObject>): (r: seq<Entry>)
    ensures |r| <= |objects|
    ensures forall i :: 0 <= i < |r| ==> r[i].fileName != ""
    decreases |objects|
  {
    if |objects| == 0 then []
    else
      var o := objects[|objects| - 1];
      var rest := Entries(objects[..|objects| - 1]);
      if HasKey(o) then rest + [Entry(o.key.value, o.size.GetOr(0), o.lastModified)] else rest
  }

  function FileNames(es: seq<Entry>): (r: seq<string>)
    ensures |r| == |es| && forall i :: 0 <= i < |es| ==> r[i] == es[i].fileName
  {
    seq(|es|, i requires 0 <= i < |es| => es[i].fileName)
  }

  /** A listed name that contributes a gallery to the forced sync. */
  predicate PostCounts(name: string)
  {
    '/' in name && !EndsWith(name, Placeholder) && Segment1(name) != ""
  }

  /** The galleries the forced sync walks. */
  function GalleryPaths(names: seq<string>): seq<string>
  {
    DistinctSegment1(names, PostCounts)
  }

  /** The objects of gallery `g`: under `B2 LuxSync/<g>/` and not a placeholder, in listing order. */
  function GalleryObjects(names: seq<string>, g: string): (r: seq<string>)
    ensures |r| <= |names|
    ensures forall k :: k in r <==> k in names && StartsWith(k, SyncRoot + "/" + g + "/") && !EndsWith(k, Placeholder)
    decreases |names|
  {
    if |names| == 0 then []
    else
      var n := names[|names| - 1];
      var rest := GalleryObjects(names[..|names| - 1], g);
      assert names == names[..|names| - 1] + [n];
      if StartsWith(n, SyncRoot + "/" + g + "/") && !EndsWith(n, Placeholder) then rest + [n] else rest
  }

  // ---------------------------------------------------------------- new gallery heuristics

  /** `name.replace(/[_-]/g, ' ')`: the whole folder name, date included. */
  function SyncTitle(name: string): string
  {
    ReplaceChars(name, {'_', '-'}, ' ')
  }

  /** `^\d{4}[-_]\d{2}[-_]\d{2}`. */
  predicate DatePrefix(name: string)
  {
    && |name| >= 10
    && IsDigit(name[0]) && IsDigit(name[1]) && IsDigit(name[2]) && IsDigit(name[3])
    && name[4] in {'-', '_'}
    && IsDigit(name[5]) && IsDigit(name[6])
    && name[7] in {'-', '_'}
    && IsDigit(name[8]) && IsDigit(name[9])
  }

  /** The matched date with every '_' made '-', else `today`. */
  function SyncEventDate(name: string, today: string): string
  {
    if DatePrefix(name) then ReplaceChars(name[..10], {'_'}, '-') else today
  }

  // ---------------------------------------------------------------- the forced sync

  const CompletedPrefix := "Sync completed. Processed "

  function CreateGalleryFailed(g: string, m: string): string { "Failed to create gallery " + g + ": " + m }
  function InsertPhotoFailed(k: string, m: string): string { "Failed to insert photo " + k + ": " + m }
  function ProcessPhotoFailed(k: string, m: string): string { "Failed to process photo " + k + ": " + m }

  /** The handler's counters and error list. */
  datatype Progress = Progress(galleries: nat, photos: nat, errors: seq<string>)

  datatype Run = Run(t: Tables, p: Progress)

  /** Find the user with this handle, else create one named after it; a failed create leaves no user. */
  function EnsureUser(t: Tables, f: Faults, handle: string): (Tables, Option<string>)
  {
    match UserByHandle(t, f, handle)
    case Found(u) => (t, Some(u.id))
    case _ =>
      var (t', r) := AddUser(t, f, handle, handle);
      (t', if r.Ok? then Some(r.value.id) else None)
  }

  /** One object of a gallery whose id is `gid`. */
  function SyncObject(run: Run, f: Faults, env: B2.Env, gid: string, key: string): Run
  {
    match Segment(key, '/', 2)
    case None => run
    case Some(handle) =>
      var (t1, userId) := EnsureUser(run.t, f, handle);
      if PhotoByKey(t1, f, key).Found? then Run(t1, run.p)
      else
        match B2.PublicUrl(env, key)
        case Err(m) => Run(t1, run.p.(errors := run.p.errors + [ProcessPhotoFailed(key, m)]))
        case Ok(url) =>
          var (t2, r) := AddPhoto(t1, f, PhotoDraft(gid, userId, key, url, None, None));
          if r.Err? then Run(t2, run.p.(errors := run.p.errors + [InsertPhotoFailed(key, r.error)]))
          else Run(t2, run.p.(photos := run.p.photos + 1))
  }

  function SyncObjects(run: Run, f: Faults, env: B2.Env, gid: string, keys: seq<string>): Run
    decreases |keys|
  {
    if |keys| == 0 then run
    else SyncObject(SyncObjects(run, f, env, gid, keys[..|keys| - 1]), f, env, gid, keys[|keys| - 1])
  }

  /** Find the gallery by folder name; on any lookup error create it. */
  function EnsureGallery(t: Tables, f: Faults, g: string, today: string): (Tables, Result<string, string>)
  {
    match GalleryByFolder(t, f, g)
    case Found(row) => (t, Ok(row.id))
    case _ =>
      var (t', r) := AddGallery(t, f, SyncTitle(g), SyncEventDate(g, today), g);
      (t', if r.Ok? then Ok(r.value.id) else Err(r.error))
  }

  function SyncGallery(run: Run, f: Faults, env: B2.Env, names: seq<string>, today: string, g: string): Run
  {
    var (t1, gid) := EnsureGallery(run.t, f, g, today);
    if gid.Err? then Run(t1, run.p.(errors := run.p.errors + [CreateGalleryFailed(g, gid.error)]))
    else SyncObjects(Run(t1, run.p.(galleries := run.p.galleries + 1)), f, env, gid.value, GalleryObjects(names, g))
  }

  function SyncGalleries(run: Run, f: Faults, env: B2.Env, names: seq<string>, today: string, gs: seq<string>): Run
    decreases |gs|
  {
    if |gs| == 0 then run
    else SyncGallery(SyncGalleries(run, f, env, names, today, gs[..|gs| - 1]), f, env, names, today, gs[|gs| - 1])
  }

  datatype PostResponse =
    | Synced(message: string, galleriesProcessed: nat, photosProcessed: nat, errors: Option<seq<string>>)
    | SyncFailed(status: nat, message: string, error: string)

  function SyncedResponse(p: Progress): PostResponse
  {
    Synced(CompletedPrefix + NatToString(p.galleries) + " galleries and " + NatToString(p.photos) + " photos.",
           p.galleries, p.photos, if |p.errors| > 0 then Some(p.errors) else None)
  }

  /** The forced sync: a failed listing is a 500; otherwise every gallery path is walked. */
  function ForcedSync(t: Tables, f: Faults, env: B2.Env, listing: Result<ListResponse, string>, today: string): (Tables, PostResponse)
  {
    match listing
    case Err(m) => (t, SyncFailed(500, "An error occurred during forced sync", m))
    case Ok(resp) =>
      var names := FileNames(Entries(ObjectsOf(resp)));
      var run := SyncGalleries(Run(t, Progress(0, 0, [])), f, env, names, today, GalleryPaths(names));
      (run.t, SyncedResponse(run.p))
  }

  // ---------------------------------------------------------------- the handler

  method FindOrCreateUser(db: Database, handle: string) returns (userId: Option<string>)
    modifies db
    ensures (db.Snapshot(), userId) == EnsureUser(old(db.Snapshot()), db.faults, handle)
  {
    userId := None;
    var existingUser := db.FindUser(handle);
    if existingUser.Found? {
      userId := Some(existingUser.row.id);
    } else {
      var newUser := db.InsertUser(handle, handle);
      if newUser.Ok? {
        userId := Some(newUser.value.id);
      }
    }
  }

  method ProcessObject(db: Database, store: B2.B2Service, gid: string, key: string, p: Progress) returns (q: Progress)
    modifies db
    ensures Run(db.Snapshot(), q) == SyncObject(Run(old(db.Snapshot()), p), db.faults, store.env, gid, key)
  {
    var handle := Segment(key, '/', 2);
    if handle.None? {
      return p;
    }
    var userId := FindOrCreateUser(db, handle.value);
    var existingPhoto := db.FindPhoto(key);
    if existingPhoto.Found? {
      return p;
    }
    var publicUrl := store.GetPublicUrl(key);
    if publicUrl.Err? {
      return p.(errors := p.errors + [ProcessPhotoFailed(key, publicUrl.error)]);
    }
    var inserted := db.InsertPhoto(PhotoDraft(gid, userId, key, publicUrl.value, None, None));
    if inserted.Err? {
      return p.(errors := p.errors + [InsertPhotoFailed(key, inserted.error)]);
    }
    q := p.(photos := p.photos + 1);
  }

  method ProcessObjects(db: Database, store: B2.B2Service, gid: string, objects: seq<string>, p: Progress)
    returns (q: Progress)
    modifies db
    ensures Run(db.Snapshot(), q) == SyncObjects(Run(old(db.Snapshot()), p), db.faults, store.env, gid, objects)
  {
    var start := Run(db.Snapshot(), p);
    q := p;
    var i := 0;
    while i < |objects|
      invariant 0 <= i <= |objects|
      invariant Run(db.Snapshot(), q) == SyncObjects(start, db.faults, store.env, gid, objects[..i])
    {
      assert objects[..i + 1][..i] == objects[..i];
      q := ProcessObject(db, store, gid, objects[i], q);
      i := i + 1;
    }
    assert objects[..i] == objects;
  }

  method FindOrCreateGallery(db: Database, g: string, today: string) returns (gid: Result<string, string>)
    modifies db
    ensures (db.Snapshot(), gid) == EnsureGallery(old(db.Snapshot()), db.faults, g, today)
  {
    var existing := db.FindGallery(g);
    if existing.Found? {
      return Ok(existing.row.id);
    }
    var created := db.InsertGallery(SyncTitle(g), SyncEventDate(g, today), g);
    if created.Err? {
      return Err(created.error);
    }
    gid := Ok(created.value.id);
  }

  method ProcessGallery(db: Database, store: B2.B2Service, names: seq<string>, today: string, g: string, p: Progress)
    returns (q: Progress)
    modifies db
    ensures Run(db.Snapshot(), q) == SyncGallery(Run(old(db.Snapshot()), p), db.faults, store.env, names, today, g)
  {
    var gid := FindOrCreateGallery(db, g, today);
    if gid.Err? {
      return p.(errors := p.errors + [CreateGalleryFailed(g, gid.error)]);
    }
    q := ProcessObjects(db, store, gid.value, GalleryObjects(names, g), p.(galleries := p.galleries + 1));
  }

  /** The galleries up to index `i` are those before it followed by gallery `i`. */
  lemma SyncGalleriesSnoc(run: Run, f: Faults, env: B2.Env, names: seq<string>, today: string, gs: seq<string>, i: nat)
    requires i < |gs|
    ensures SyncGalleries(run, f, env, names, today, gs[..i + 1])
         == SyncGallery(SyncGalleries(run, f, env, names, today, gs[..i]), f, env, names, today, gs[i])
  {
    assert gs[..i + 1][..i] == gs[..i];
  }

  /** The POST handler over the database and the store, given the listing and today's date. */
  method Post(db: Database, store: B2.B2Service, listing: Result<ListResponse, string>, today: string)
    returns (resp: PostResponse)
    modifies db
    ensures (db.Snapshot(), resp) == ForcedSync(old(db.Snapshot()), db.faults, store.env, listing, today)
  {
    if listing.Err? {
      return SyncFailed(500, "An error occurred during forced sync", listing.error);
    }
    var names := FileNames(Entries(ObjectsOf(listing.value)));
    var paths := GalleryPaths(names);
    var start := Run(db.Snapshot(), Progress(0, 0, []));
    var p := Progress(0, 0, []);
    var i := 0;
    while i < |paths|
      invariant 0 <= i <= |paths|
      invariant Run(db.Snapshot(), p) == SyncGalleries(start, db.faults, store.env, names, today, paths[..i])
    {
      p := ProcessGallery(db, store, names, today, paths[i], p);
      SyncGalleriesSnoc(start, db.faults, store.env, names, today, paths, i);
      i := i + 1;
    }
    assert paths[..i] == paths;
    resp := SyncedResponse(p);
  }

  // ---------------------------------------------------------------- the consistency analysis

  /** A listed name that contributes a folder to the analysis: the placeholder test is on the folder. */
  predicate GetCounts(name: string)
  {
    '/' in name && Segment1(name) != "" && !EndsWith(Segment1(name), Placeholder)
  }

  function GalleryFolders(names: seq<string>): seq<string>
  {
    DistinctSegment1(names, GetCounts)
  }

  const NoGalleries := "No galleries found in database"
  const FoldersButEmpty := "B2 has gallery folders but database is empty"
  const NoPhotos := "No photos found in database"
  const NoUsers := "No users found in database"
  const MissingPrefix := "Missing galleries in DB: "

  function FolderNames(gs: seq<Gallery>): (r: seq<string>)
    ensures |r| == |gs| && forall i :: 0 <= i < |gs| ==> r[i] == gs[i].folder_name
  {
    seq(|gs|, i requires 0 <= i < |gs| => gs[i].folder_name)
  }

  function GalleryIds(gs: seq<Gallery>): (r: seq<string>)
    ensures |r| == |gs| && forall i :: 0 <= i < |gs| ==> r[i] == gs[i].id
  {
    seq(|gs|, i requires 0 <= i < |gs| => gs[i].id)
  }

  /** The folders not among `known`, in order. */
  function Missing(folders: seq<string>, known: seq<string>): (r: seq<string>)
    ensures forall x :: x in r <==> x in folders && x !in known
    decreases |folders|
  {
    if |folders| == 0 then []
    else (if folders[0] in known then [] else [folders[0]]) + Missing(folders[1..], known)
  }

  /** The photos whose gallery id is not among `ids`. */
  function Orphans(photos: seq<Photo>, ids: seq<string>): (r: nat)
    ensures r <= |photos|
    ensures r == 0 <==> forall i :: 0 <= i < |photos| ==> photos[i].gallery_id in ids
    decreases |photos|
  {
    if |photos| == 0 then 0
    else
      assert forall i :: 1 <= i < |photos| ==> photos[1..][i - 1] == photos[i];
      (if photos[0].gallery_id in ids then 0 else 1) + Orphans(photos[1..], ids)
  }

  /** `array.join(', ')`. */
  function JoinComma(xs: seq<string>): string
    decreases |xs|
  {
    if |xs| == 0 then "" else if |xs| == 1 then xs[0] else xs[0] + ", " + JoinComma(xs[1..])
  }

  /** The discrepancy list, in the order the handler pushes. */
  function Discrepancies(galleries: seq<Gallery>, photos: seq<Photo>, users: seq<User>, folders: seq<string>): seq<string>
  {
    var missing := Missing(folders, FolderNames(galleries));
    var galleryPart :=
      if |galleries| == 0 then [NoGalleries]
      else if |folders| > 0 && |galleries| == 0 then [FoldersButEmpty]
      else if |missing| > 0 then [MissingPrefix + JoinComma(missing)]
      else [];
    var orphans := Orphans(photos, GalleryIds(galleries));
    galleryPart
      + (if |photos| == 0 then [NoPhotos] else [])
      + (if |users| == 0 then [NoUsers] else [])
      + (if |photos| > 0 && |galleries| > 0 && orphans > 0
         then ["Found " + NatToString(orphans) + " photos with non-existent galleries"] else [])
  }

  datatype Analysis = Analysis(
    galleryCount: nat, photoCount: nat, userCount: nat,
    objectCount: nat, galleryFolders: seq<string>,
    discrepancies: seq<string>)

  datatype GetResponse =
    | Analyzed(analysis: Analysis, sample: seq<Entry>)
    | AnalysisFailed(status: nat, message: string, error: string)

  /** The GET handler: three selects in order (the first error is a 500), then the listing, then the analysis. */
  function Verify(t: Tables, f: Faults, listing: Result<ListResponse, string>): (r: GetResponse)
  {
    if f.selectGalleries then AnalysisFailed(500, "Error fetching galleries from database", f.message)
    else if f.selectPhotos then AnalysisFailed(500, "Error fetching photos from database", f.message)
    else if f.selectUsers then AnalysisFailed(500, "Error fetching users from database", f.message)
    else match listing
      case Err(m) => AnalysisFailed(500, "An error occurred during sync verification", m)
      case Ok(resp) =>
        var entries := Entries(ObjectsOf(resp));
        var folders := GalleryFolders(FileNames(entries));
        Analyzed(
          Analysis(|t.galleries|, |t.photos|, |t.users|, |entries|, folders,
                   Discrepancies(t.galleries, t.photos, t.users, folders)),
          if |entries| <= 10 then entries else entries[..10])
  }
}
