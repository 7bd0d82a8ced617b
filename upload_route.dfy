/**
 * The admin upload endpoint: each file of the form is stored under a fresh name, then the gallery
 * named by the folder path's first segment and the user named by its second segment are looked up
 * (and created when absent), and a photo row is inserted for the file. Problems are collected per
 * file; a file whose upload throws is not counted as processed.
 */
module UploadRoute {

  import opened Wrappers
  import opened Strings
  import opened Records
  import opened Db
  import B2
  import SyncVerify

  // ---------------------------------------------------------------- inputs and outputs

  /**
   * One entry of the form's `files`: its name, MIME type and body, the UUID drawn for it, and the
   * width and height the image-size reader finds in the body (`None` when it cannot read them).
   */
  datatype FilePart = FilePart(
    name: string,
    mimeType: string,
    body: B2.Bytes,
    uuid: string,
    width: Option<int>,
    height: Option<int>)

  /** The parsed form: every `files` entry and the `folderPath` field when it was sent. */
  datatype Form = Form(files: seq<FilePart>, folderPath: Option<string>)

  /** What the handler reads: the ADMIN_PASSWORD variable and the form, `None` when parsing fails. */
  datatype Request = Request(adminPassword: Option<string>, form: Option<Form>)

  /** The JSON body and status; `processedFiles` and `errors` are absent where the handler leaves them out. */
  datatype Response = Response(
    status: nat,
    success: bool,
    message: string,
    processedFiles: Option<nat>,
    errors: Option<seq<string>>)

  /**
   * Which reading of the handler is meant. The code is `AsWritten`; `storedKey` writes the key that
   * `uploadFile` stored the object under instead of `b2Path`, and `absentIsNoRow` reads a lookup
   * that finds no row as "no row" rather than as an error (what `.maybeSingle()` reports).
   */
  datatype Rules = Rules(storedKey: bool, absentIsNoRow: bool)

  const AsWritten := Rules(false, false)

  const PasswordMissing := "Admin password not configured"
  const PayloadTooLarge := "Request payload too large. The server has a size limit (typically 4.5MB on free hosting tiers). Please reduce file sizes or contact the administrator to adjust server settings."
  const NoFiles := "No files provided"
  const UploadRoot := "B2 LuxSync"
  const UnknownUser := "unknown"

  // ---------------------------------------------------------------- names

  /** `name.split('.').pop().toLowerCase()`: the whole name when it has no '.'. */
  function FileExtension(name: string): string
  {
    ToLower(LastSegment(name, '.'))
  }

  /** The name the file is stored under: the UUID, a '.', and the extension. */
  function HashedName(uuid: string, name: string): string
  {
    uuid + "." + FileExtension(name)
  }

  /** The key the handler writes into the photo row: root, folder and name joined by '/', the first "//" collapsed. */
  function B2Path(folder: string, hashed: string): string
  {
    ReplaceFirst(UploadRoot + "/" + folder + "/" + hashed, "//", "/")
  }

  /** `folderPath.split('/')[0]`. */
  function GalleryName(folder: string): string
  {
    Split(folder, '/')[0]
  }

  /** `folderPath.split('/')[1] || 'unknown'`. */
  function UserHandle(folder: string): string
  {
    var s := Segment(folder, '/', 1);
    if s.Some? && s.value != "" then s.value else UnknownUser
  }

  /** The lookup's `error` as the rules read it. */
  function LookupError<T>(l: Lookup<T>, rules: Rules): Option<string>
  {
    if rules.absentIsNoRow && l.NotFound? then None else l.Error()
  }

  /** `user?.id`. */
  function UserId(user: Option<User>): Option<string>
  {
    match user
    case None => None
    case Some(u) => Some(u.id)
  }

  // ---------------------------------------------------------------- messages

  /** `fileError.message || 'Unknown error'`. */
  function UploadFailed(name: string, m: string): string
  {
    "Failed to upload " + name + ": " + (if m != "" then m else "Unknown error")
  }

  function FindGalleryFailed(g: string, m: string): string { "Failed to find or create gallery " + g + ": " + m }
  function CreateGalleryFailed(g: string, m: string): string { "Failed to create gallery " + g + ": " + m }
  function FindUserFailed(h: string, m: string): string { "Failed to find or create user " + h + ": " + m }
  function CreateUserFailed(h: string, m: string): string { "Failed to create user " + h + ": " + m }
  function SaveFailed(name: string, m: string): string { "Failed to save metadata for " + name + ": " + m }
  function NoGallery(name: string): string { "Could not find or create gallery for " + name }

  // ---------------------------------------------------------------- one file as a function of the state

  /** The tables, the bucket, `processedFiles` and `errors` between two files. */
  datatype Run = Run(tables: Tables, objects: B2.Bucket, processed: nat, errors: seq<string>)

  /**
   * Find-or-create of the gallery whose folder name is `g`: the tables after, the gallery the file
   * goes to (if any) and the errors recorded. A new gallery gets the forced sync's title and date.
   */
  function GalleryStep(t: Tables, f: Faults, g: string, today: string, rules: Rules): (Tables, Option<Gallery>, seq<string>)
  {
    var lookup := GalleryByFolder(t, f, g);
    match LookupError(lookup, rules)
    case Some(m) => (t, None, [FindGalleryFailed(g, m)])
    case None =>
      if lookup.Found? then (t, Some(lookup.row), [])
      else
        var (u, r) := AddGallery(t, f, SyncVerify.SyncTitle(g), SyncVerify.SyncEventDate(g, today), g);
        if r.Ok? then (u, Some(r.value), []) else (u, None, [CreateGalleryFailed(g, r.error)])
  }

  /** Find-or-create of the user with handle `h`, whose display name is the handle. */
  function UserStep(t: Tables, f: Faults, h: string, rules: Rules): (Tables, Option<User>, seq<string>)
  {
    var lookup := UserByHandle(t, f, h);
    match LookupError(lookup, rules)
    case Some(m) => (t, None, [FindUserFailed(h, m)])
    case None =>
      if lookup.Found? then (t, Some(lookup.row), [])
      else
        var (u, r) := AddUser(t, f, h, h);
        if r.Ok? then (u, Some(r.value), []) else (u, None, [CreateUserFailed(h, r.error)])
  }

  /**
   * The photo row: inserted only when there is a gallery; `Err` is the error `getPublicUrl` throws,
   * `Ok` the errors recorded.
   */
  function PhotoStep(t: Tables, f: Faults, env: B2.Env, gallery: Option<Gallery>, user: Option<User>,
                     key: string, file: FilePart): (Tables, Result<seq<string>, string>)
  {
    match gallery
    case None => (t, Ok([NoGallery(file.name)]))
    case Some(g) =>
      match B2.PublicUrl(env, key)
      case Err(m) => (t, Err(m))
      case Ok(url) =>
        var (u, r) := AddPhoto(t, f, PhotoDraft(g.id, UserId(user), key, url, file.width, file.height));
        (u, Ok(if r.Ok? then [] else [SaveFailed(file.name, r.error)]))
  }

  /** The key of the photo row: `b2Path` as written, the stored object's key under `storedKey`. */
  function RowKey(env: B2.Env, folder: string, hashed: string, rules: Rules): string
  {
    if rules.storedKey then B2.UploadKey(env, folder, hashed) else B2Path(folder, hashed)
  }

  /** One iteration of the loop: upload, gallery, user, photo row; a throw skips `processedFiles++`. */
  function UploadOne(run: Run, f: Faults, env: B2.Env, sf: B2.StoreFaults, folder: string, file: FilePart,
                     now: nat, today: string, rules: Rules): Run
  {
    var hashed := HashedName(file.uuid, file.name);
    var (objects, up) := B2.Upload(run.objects, env, sf, file.body, hashed, folder, Some(file.mimeType), now);
    match up
    case Err(e) => run.(objects := objects, errors := run.errors + [UploadFailed(file.name, e.Message())])
    case Ok(_) =>
      var (t1, gallery, e1) := GalleryStep(run.tables, f, GalleryName(folder), today, rules);
      var (t2, user, e2) := UserStep(t1, f, UserHandle(folder), rules);
      var (t3, r) := PhotoStep(t2, f, env, gallery, user, RowKey(env, folder, hashed, rules), file);
      match r
      case Err(m) => Run(t3, objects, run.processed, run.errors + e1 + e2 + [UploadFailed(file.name, m)])
      case Ok(e3) => Run(t3, objects, run.processed + 1, run.errors + e1 + e2 + e3)
  }

  function UploadAll(run: Run, f: Faults, env: B2.Env, sf: B2.StoreFaults, folder: string, files: seq<FilePart>,
                     now: nat, today: string, rules: Rules): Run
    decreases |files|
  {
    if |files| == 0 then run
    else UploadOne(UploadAll(run, f, env, sf, folder, files[..|files| - 1], now, today, rules),
                   f, env, sf, folder, files[|files| - 1], now, today, rules)
  }

  /** `Upload completed. N files processed.` */
  function Completed(n: nat): string
  {
    "Upload completed. " + NatToString(n) + " files processed."
  }

  /** `POST`: the tables and bucket after the request, and the response. */
  function Post(t: Tables, f: Faults, objects: B2.Bucket, env: B2.Env, sf: B2.StoreFaults, req: Request,
                now: nat, today: string, rules: Rules): (Tables, B2.Bucket, Response)
  {
    if !B2.Truthy(req.adminPassword) then (t, objects, Response(500, false, PasswordMissing, None, None))
    else if req.form.None? then (t, objects, Response(413, false, PayloadTooLarge, None, None))
    else if |req.form.value.files| == 0 then (t, objects, Response(400, false, NoFiles, None, None))
    else
      var folder := req.form.value.folderPath.GetOr("");
      var run := UploadAll(Run(t, objects, 0, []), f, env, sf, folder, req.form.value.files, now, today, rules);
      (run.tables, run.objects,
       Response(200, true, Completed(run.processed), Some(run.processed), if |run.errors| > 0 then Some(run.errors) else None))
  }

  // ---------------------------------------------------------------- the handler over the database and the bucket

  /** The gallery's find-or-create over the database. */
  method FindOrCreateGallery(db: Database, galleryName: string, today: string, rules: Rules)
    returns (gallery: Option<Gallery>, e1: seq<string>)
    modifies db
    ensures (db.Snapshot(), gallery, e1) == GalleryStep(old(db.Snapshot()), db.faults, galleryName, today, rules)
  {
    gallery, e1 := None, [];
    var existing := db.FindGallery(galleryName);
    var galleryError := LookupError(existing, rules);
    if galleryError.Some? {
      e1 := [FindGalleryFailed(galleryName, galleryError.value)];
    } else if existing.Found? {
      gallery := Some(existing.row);
    } else {
      var created := db.InsertGallery(SyncVerify.SyncTitle(galleryName), SyncVerify.SyncEventDate(galleryName, today), galleryName);
      if created.Err? {
        e1 := [CreateGalleryFailed(galleryName, created.error)];
      } else {
        gallery := Some(created.value);
      }
    }
  }

  /** The user's find-or-create over the database. */
  method FindOrCreateUser(db: Database, userHandle: string, rules: Rules) returns (user: Option<User>, e2: seq<string>)
    modifies db
    ensures (db.Snapshot(), user, e2) == UserStep(old(db.Snapshot()), db.faults, userHandle, rules)
  {
    user, e2 := None, [];
    var existingUser := db.FindUser(userHandle);
    var userError := LookupError(existingUser, rules);
    if userError.Some? {
      e2 := [FindUserFailed(userHandle, userError.value)];
    } else if existingUser.Found? {
      user := Some(existingUser.row);
    } else {
      var created := db.InsertUser(userHandle, userHandle);
      if created.Err? {
        e2 := [CreateUserFailed(userHandle, created.error)];
      } else {
        user := Some(created.value);
      }
    }
  }

  /** One file; `processed` and `errors` are the counters before it. */
  method ProcessFile(db: Database, store: B2.B2Service, folder: string, file: FilePart, now: nat, today: string,
                     rules: Rules, processed: nat, errors: seq<string>) returns (processed': nat, errors': seq<string>)
    modifies db, store
    ensures Run(db.Snapshot(), store.objects, processed', errors')
         == UploadOne(Run(old(db.Snapshot()), old(store.objects), processed, errors), db.faults, store.env,
                      store.faults, folder, file, now, today, rules)
  {
    var hashed := HashedName(file.uuid, file.name);
    var up := store.UploadFile(file.body, hashed, folder, Some(file.mimeType), now);
    if up.Err? {
      return processed, errors + [UploadFailed(file.name, up.error.Message())];
    }
    var galleryName := GalleryName(folder);
    var gallery, e1 := FindOrCreateGallery(db, galleryName, today, rules);
    var userHandle := UserHandle(folder);
    var user, e2 := FindOrCreateUser(db, userHandle, rules);

    var key := RowKey(store.env, folder, hashed, rules);
    var e3: seq<string> := [];
    match gallery {
      case None =>
        e3 := [NoGallery(file.name)];
      case Some(g) =>
        var url := store.GetPublicUrl(key);
        match url {
          case Err(m) =>
            return processed, errors + e1 + e2 + [UploadFailed(file.name, m)];
          case Ok(u) =>
            var inserted := db.InsertPhoto(PhotoDraft(g.id, UserId(user), key, u, file.width, file.height));
            if inserted.Err? {
              e3 := [SaveFailed(file.name, inserted.error)];
            }
        }
    }
    processed', errors' := processed + 1, errors + e1 + e2 + e3;
  }

  /** `POST` over the database and the bucket. */
  method HandlePost(db: Database, store: B2.B2Service, req: Request, now: nat, today: string, rules: Rules)
    returns (res: Response)
    modifies db, store
    ensures (db.Snapshot(), store.objects, res)
         == Post(old(db.Snapshot()), db.faults, old(store.objects), store.env, store.faults, req, now, today, rules)
  {
    if !B2.Truthy(req.adminPassword) {
      return Response(500, false, PasswordMissing, None, None);
    }
    if req.form.None? {
      return Response(413, false, PayloadTooLarge, None, None);
    }
    var files := req.form.value.files;
    var folder := req.form.value.folderPath.GetOr("");
    if |files| == 0 {
      return Response(400, false, NoFiles, None, None);
    }
    ghost var start := Run(db.Snapshot(), store.objects, 0, []);
    var processed := 0;
    var errors: seq<string> := [];
    var i := 0;
    while i < |files|
      invariant 0 <= i <= |files|
      invariant Run(db.Snapshot(), store.objects, processed, errors)
             == UploadAll(start, db.faults, store.env, store.faults, folder, files[..i], now, today, rules)
    {
      assert files[..i + 1][..i] == files[..i];
      processed, errors := ProcessFile(db, store, folder, files[i], now, today, rules, processed, errors);
      i := i + 1;
    }
    assert files[..i] == files;
    res := Response(200, true, Completed(processed), Some(processed), if |errors| > 0 then Some(errors) else None);
  }
}
