/**
 * What the admin upload endpoint guarantees: how it names the stored file and the row's key, which
 * gallery and user a file goes to, the shape of the row it inserts, and how `processedFiles` and
 * `errors` account for the files; and two places where the handler departs from what it evidently
 * means to do, each next to the corrected reading.
 */
module UploadRouteLaws {

  import opened Wrappers
  import opened Strings
  import opened Records
  import opened Db
  import opened UploadRoute
  import B2
  import SyncVerify

  // ---------------------------------------------------------------- names

  /** The stored name keeps the lower-cased text after the last '.'. */
  lemma HashedNameKeepsExtension(uuid: string, stem: string, ext: string)
    requires '.' !in ext
    ensures HashedName(uuid, stem + "." + ext) == uuid + "." + ToLower(ext)
  {
    assert stem + "." + ext == stem + ['.'] + ext;
    SplitAppend(stem, ext, '.');
    SplitOfSeparatorFree(ext, '.');
  }

  /** A name with no '.' is used whole as the extension. */
  lemma HashedNameWithoutDot(uuid: string, name: string)
    requires '.' !in name
    ensures HashedName(uuid, name) == uuid + "." + ToLower(name)
  {
    SplitOfSeparatorFree(name, '.');
  }

  /** The gallery is the folder path's first segment; the user is its second, or "unknown" when that is absent or empty. */
  lemma FolderNames(g: string, u: string, rest: string)
    requires '/' !in g && '/' !in u
    ensures GalleryName(g) == g && UserHandle(g) == UnknownUser
    ensures GalleryName(g + "/" + u) == g
    ensures UserHandle(g + "/" + u) == if u != "" then u else UnknownUser
    ensures GalleryName(g + "/" + u + "/" + rest) == g
    ensures UserHandle(g + "/" + u + "/" + rest) == if u != "" then u else UnknownUser
  {
    SplitOfSeparatorFree(g, '/');
    SplitOfSeparatorFree(u, '/');
    assert g + "/" + u == g + ['/'] + u;
    SplitAppend(g, u, '/');
    assert g + "/" + u + "/" + rest == g + ['/'] + (u + ['/'] + rest);
    SplitAppend(g, u + ['/'] + rest, '/');
    SplitAppend(u, rest, '/');
  }

  // ---------------------------------------------------------------- the row's key against the stored key

  /** No two consecutive '/'. */
  predicate NoDoubleSlash(s: string)
  {
    forall i :: 0 <= i < |s| - 1 ==> !(s[i] == '/' && s[i + 1] == '/')
  }

  /** A folder path with no leading, trailing or doubled '/'. */
  predicate PlainFolder(folder: string)
  {
    folder != "" && folder[0] != '/' && folder[|folder| - 1] != '/' && NoDoubleSlash(folder)
  }

  lemma NoDoubleSlashJoin(a: string, b: string)
    requires NoDoubleSlash(a) && NoDoubleSlash(b)
    requires a == "" || b == "" || a[|a| - 1] != '/' || b[0] != '/'
    ensures NoDoubleSlash(a + b)
  {
    var s := a + b;
    forall i | 0 <= i < |s| - 1
      ensures !(s[i] == '/' && s[i + 1] == '/')
    {
      if i + 1 < |a| {
        assert s[i] == a[i] && s[i + 1] == a[i + 1];
      } else if i >= |a| {
        assert s[i] == b[i - |a|] && s[i + 1] == b[i + 1 - |a|];
      } else {
        assert s[i] == a[|a| - 1] && s[i + 1] == b[0];
      }
    }
  }

  lemma SlashFreeHasNoDoubleSlash(s: string)
    requires '/' !in s
    ensures NoDoubleSlash(s)
  {
    forall i | 0 <= i < |s| - 1
      ensures s[i] != '/'
    {
      assert s[i] in s;
    }
  }

  /** Without "//" there is nothing to collapse. */
  lemma ReplaceWithoutDoubleSlash(s: string)
    requires NoDoubleSlash(s)
    ensures ReplaceFirst(s, "//", "/") == s
  {
    forall i | 0 <= i <= |s| - 2
      ensures !OccursAt(s, "//", i)
    {
      assert s[i..i + 2][0] == s[i] && s[i..i + 2][1] == s[i + 1];
    }
    assert !Contains(s, "//");
  }

  /** The first "//" after a prefix that holds none and does not end in '/' is the one collapsed. */
  lemma ReplaceFirstDoubleSlash(a: string, b: string)
    requires NoDoubleSlash(a) && (a == "" || a[|a| - 1] != '/')
    ensures ReplaceFirst(a + "//" + b, "//", "/") == a + "/" + b
  {
    var s := a + "//" + b;
    assert OccursAt(s, "//", |a|) by {
      assert s[|a|..|a| + 2] == "//";
    }
    forall j | 0 <= j < |a|
      ensures !OccursAt(s, "//", j)
    {
      assert s[j..j + 2][0] == s[j] && s[j..j + 2][1] == s[j + 1];
      if j + 1 < |a| {
        assert s[j] == a[j] && s[j + 1] == a[j + 1];
      } else {
        assert s[j] == a[|a| - 1];
      }
    }
    var k := IndexOf(s, "//");
    assert k.Some?;
    assert k.value == |a|;
    assert s[..|a|] == a;
    assert s[|a| + 2..] == b;
  }

  /**
   * With the default base path, the row's key and the stored key agree for an empty folder and for
   * a folder with no leading, trailing or doubled '/'.
   */
  lemma B2PathIsUploadKey(env: B2.Env, folder: string, hashed: string)
    requires !B2.Truthy(env.basePath)
    requires folder == "" || PlainFolder(folder)
    requires '/' !in hashed
    ensures B2Path(folder, hashed) == B2.UploadKey(env, folder, hashed)
  {
    SlashFreeHasNoDoubleSlash(hashed);
    if folder == "" {
      SlashFreeHasNoDoubleSlash(UploadRoot);
      assert UploadRoot + "/" + folder + "/" + hashed == UploadRoot + "//" + hashed;
      ReplaceFirstDoubleSlash(UploadRoot, hashed);
    } else {
      var root := UploadRoot + "/";
      assert NoDoubleSlash(root);
      NoDoubleSlashJoin(root, folder);
      NoDoubleSlashJoin(root + folder, "/");
      NoDoubleSlashJoin(root + folder + "/", hashed);
      ReplaceWithoutDoubleSlash(root + folder + "/" + hashed);
    }
  }

  /** A trailing '/' on the folder: the row's key loses the "//" that the stored key keeps. */
  lemma TrailingSlashMissesStoredKey(env: B2.Env, g: string, hashed: string)
    requires !B2.Truthy(env.basePath)
    requires PlainFolder(g)
    ensures B2Path(g + "/", hashed) == UploadRoot + "/" + g + "/" + hashed
    ensures B2.UploadKey(env, g + "/", hashed) == UploadRoot + "/" + g + "//" + hashed
    ensures B2Path(g + "/", hashed) != B2.UploadKey(env, g + "/", hashed)
  {
    var a := UploadRoot + "/" + g;
    assert NoDoubleSlash(UploadRoot + "/");
    NoDoubleSlashJoin(UploadRoot + "/", g);
    assert a[|a| - 1] == g[|g| - 1];
    assert UploadRoot + "/" + (g + "/") + "/" + hashed == a + "//" + hashed;
    ReplaceFirstDoubleSlash(a, hashed);
    assert |B2Path(g + "/", hashed)| < |B2.UploadKey(env, g + "/", hashed)|;
  }

  // ---------------------------------------------------------------- one step at a time

  lemma GalleryStepOutcome(t: Tables, f: Faults, g: string, today: string, rules: Rules)
    ensures var (u, gallery, es) := GalleryStep(t, f, g, today, rules);
      && u.users == t.users && u.photos == t.photos && Extends(t, u)
      && |es| <= 1
      && (gallery.Some? ==> gallery.value in u.galleries && gallery.value.folder_name == g)
      && (u != t ==> rules.absentIsNoRow && GalleryByFolder(t, f, g).NotFound? && g !in f.galleryInsert)
      && (u != t ==> u.galleries == t.galleries + [gallery.value] && u.nextId == t.nextId + 1)
  {
    var lookup := GalleryByFolder(t, f, g);
    if lookup.Found? {
      assert FolderOf(lookup.row) == g;
    }
  }

  lemma UserStepOutcome(t: Tables, f: Faults, h: string, rules: Rules)
    ensures var (u, user, es) := UserStep(t, f, h, rules);
      && u.galleries == t.galleries && u.photos == t.photos && Extends(t, u)
      && |es| <= 1
      && (user.Some? ==> user.value in u.users && user.value.handle == h)
      && (u != t ==> rules.absentIsNoRow && UserByHandle(t, f, h).NotFound? && h !in f.userInsert)
  {
    var lookup := UserByHandle(t, f, h);
    if lookup.Found? {
      assert HandleOf(lookup.row) == h;
    }
  }

  lemma PhotoStepOutcome(t: Tables, f: Faults, env: B2.Env, gallery: Option<Gallery>, user: Option<User>,
                         key: string, file: FilePart)
    ensures var (u, r) := PhotoStep(t, f, env, gallery, user, key, file);
      && u.galleries == t.galleries && u.users == t.users && Extends(t, u)
      && (r.Err? <==> gallery.Some? && B2.PublicUrl(env, key).Err?)
      && (r.Ok? ==> |r.value| <= 1)
      && (gallery.None? ==> u == t && r == Ok([NoGallery(file.name)]))
      && (u.photos != t.photos ==>
            && gallery.Some? && B2.PublicUrl(env, key).Ok? && key !in f.photoInsert
            && u.photos == t.photos + [PhotoOf(RowId(t.nextId), PhotoDraft(gallery.value.id, UserId(user), key,
                                                 B2.PublicUrl(env, key).value, file.width, file.height))])
      && (gallery.Some? && B2.PublicUrl(env, key).Ok? && key !in f.photoInsert ==> |u.photos| == |t.photos| + 1)
  {
  }

  /** The upload throws: the put fails, no public URL is configured, or the head request fails. */
  predicate UploadThrows(env: B2.Env, sf: B2.StoreFaults, folder: string, file: FilePart)
  {
    var key := B2.UploadKey(env, folder, HashedName(file.uuid, file.name));
    key in sf.put || B2.PublicUrl(env, key).Err? || key in sf.head
  }

  /** One file in terms of its steps. */
  lemma UploadOneSteps(run: Run, f: Faults, env: B2.Env, sf: B2.StoreFaults, folder: string, file: FilePart,
                       now: nat, today: string, rules: Rules)
    ensures var hashed := HashedName(file.uuid, file.name);
      var key := B2.UploadKey(env, folder, hashed);
      var r := UploadOne(run, f, env, sf, folder, file, now, today, rules);
      && r.objects == (if key in sf.put then run.objects
                       else run.objects[key := B2.StoredObject(file.body, Some(B2.ContentTypeOr(Some(file.mimeType))), Some(now))])
      && (UploadThrows(env, sf, folder, file) ==>
            && r.tables == run.tables && r.processed == run.processed
            && exists m :: r.errors == run.errors + [UploadFailed(file.name, m)])
      && (!UploadThrows(env, sf, folder, file) ==>
            var (t1, gallery, e1) := GalleryStep(run.tables, f, GalleryName(folder), today, rules);
            var (t2, user, e2) := UserStep(t1, f, UserHandle(folder), rules);
            var (t3, p) := PhotoStep(t2, f, env, gallery, user, RowKey(env, folder, hashed, rules), file);
            && p.Ok?
            && r == Run(t3, r.objects, run.processed + 1, run.errors + e1 + e2 + p.value))
  {
    var hashed := HashedName(file.uuid, file.name);
    var (objects, up) := B2.Upload(run.objects, env, sf, file.body, hashed, folder, Some(file.mimeType), now);
    if up.Err? {
      var r := UploadOne(run, f, env, sf, folder, file, now, today, rules);
      assert r.errors == run.errors + [UploadFailed(file.name, up.error.Message())];
    } else {
      var (t1, gallery, e1) := GalleryStep(run.tables, f, GalleryName(folder), today, rules);
      var (t2, user, e2) := UserStep(t1, f, UserHandle(folder), rules);
      var key := RowKey(env, folder, hashed, rules);
      assert B2.PublicUrl(env, key).Ok?;
    }
  }

  // ---------------------------------------------------------------- accounting

  /** The number of files whose upload does not throw. */
  function Uploaded(env: B2.Env, sf: B2.StoreFaults, folder: string, files: seq<FilePart>): (n: nat)
    ensures n <= |files|
    decreases |files|
  {
    if |files| == 0 then 0
    else Uploaded(env, sf, folder, files[..|files| - 1]) + (if UploadThrows(env, sf, folder, files[|files| - 1]) then 0 else 1)
  }

  /**
   * One file: a throwing upload records exactly one error and leaves the tables and the count alone;
   * any other file is counted, whatever it recorded. Errors are only appended, rows are only added,
   * no object is removed, and the stored object sits under the upload key unless the put failed.
   */
  lemma FileAccounting(run: Run, f: Faults, env: B2.Env, sf: B2.StoreFaults, folder: string, file: FilePart,
                       now: nat, today: string, rules: Rules)
    ensures var r := UploadOne(run, f, env, sf, folder, file, now, today, rules);
      && (UploadThrows(env, sf, folder, file) ==>
            r.tables == run.tables && r.processed == run.processed && |r.errors| == |run.errors| + 1)
      && (!UploadThrows(env, sf, folder, file) ==> r.processed == run.processed + 1)
      && run.errors <= r.errors
      && Extends(run.tables, r.tables)
      && run.objects.Keys <= r.objects.Keys
      && var key := B2.UploadKey(env, folder, HashedName(file.uuid, file.name));
         (key !in sf.put ==> key in r.objects && r.objects[key].body == file.body)
  {
    UploadOneSteps(run, f, env, sf, folder, file, now, today, rules);
    var hashed := HashedName(file.uuid, file.name);
    if !UploadThrows(env, sf, folder, file) {
      var (t1, gallery, e1) := GalleryStep(run.tables, f, GalleryName(folder), today, rules);
      GalleryStepOutcome(run.tables, f, GalleryName(folder), today, rules);
      var (t2, user, e2) := UserStep(t1, f, UserHandle(folder), rules);
      UserStepOutcome(t1, f, UserHandle(folder), rules);
      PhotoStepOutcome(t2, f, env, gallery, user, RowKey(env, folder, hashed, rules), file);
    }
  }

  /** The whole loop: `processedFiles` is the number of files that did not throw; each one that threw left an error. */
  lemma {:induction false} UploadAllAccounting(run: Run, f: Faults, env: B2.Env, sf: B2.StoreFaults, folder: string,
                                               files: seq<FilePart>, now: nat, today: string, rules: Rules)
    ensures var r := UploadAll(run, f, env, sf, folder, files, now, today, rules);
      && r.processed == run.processed + Uploaded(env, sf, folder, files)
      && |r.errors| >= |run.errors| + (|files| - Uploaded(env, sf, folder, files))
      && run.errors <= r.errors
      && Extends(run.tables, r.tables)
      && run.objects.Keys <= r.objects.Keys
    decreases |files|
  {
    if |files| > 0 {
      var front := files[..|files| - 1];
      UploadAllAccounting(run, f, env, sf, folder, front, now, today, rules);
      var mid := UploadAll(run, f, env, sf, folder, front, now, today, rules);
      FileAccounting(mid, f, env, sf, folder, files[|files| - 1], now, today, rules);
    }
  }

  // ---------------------------------------------------------------- the response

  /** Before the loop: a missing password, an unreadable form or no files change nothing. */
  lemma RejectedRequestsWriteNothing(t: Tables, f: Faults, objects: B2.Bucket, env: B2.Env, sf: B2.StoreFaults,
                                     req: Request, now: nat, today: string, rules: Rules)
    ensures var (u, o, res) := Post(t, f, objects, env, sf, req, now, today, rules);
      && (!B2.Truthy(req.adminPassword) ==> u == t && o == objects && res.status == 500 && !res.success)
      && (B2.Truthy(req.adminPassword) && req.form.None? ==> u == t && o == objects && res.status == 413 && !res.success)
      && (B2.Truthy(req.adminPassword) && req.form.Some? && |req.form.value.files| == 0 ==>
            u == t && o == objects && res.status == 400 && res.message == NoFiles)
  {
  }

  /**
   * An accepted request succeeds; `processedFiles` counts the files that did not throw; `errors` is
   * left out exactly when nothing was recorded, so its absence means every file was processed.
   */
  lemma PostReportsEveryFile(t: Tables, f: Faults, objects: B2.Bucket, env: B2.Env, sf: B2.StoreFaults,
                             req: Request, now: nat, today: string, rules: Rules)
    requires B2.Truthy(req.adminPassword) && req.form.Some? && |req.form.value.files| > 0
    ensures var files := req.form.value.files;
      var folder := req.form.value.folderPath.GetOr("");
      var n := Uploaded(env, sf, folder, files);
      var (u, o, res) := Post(t, f, objects, env, sf, req, now, today, rules);
      && res.status == 200 && res.success
      && res.processedFiles == Some(n) && res.message == Completed(n)
      && (res.errors.None? ==> n == |files|)
      && (res.errors.Some? ==> |res.errors.value| >= |files| - n && |res.errors.value| > 0)
      && Extends(t, u) && objects.Keys <= o.Keys
  {
    var files := req.form.value.files;
    var folder := req.form.value.folderPath.GetOr("");
    UploadAllAccounting(Run(t, objects, 0, []), f, env, sf, folder, files, now, today, rules);
  }

  // ---------------------------------------------------------------- the photo row

  /**
   * At most one row is added per file, and only for a gallery row with the folder's first segment
   * as its folder name: the row has that gallery's id, the row key, the public URL of that key, the
   * file's width and height, no optimized URL, and a user tag only for a user with the folder's
   * user handle.
   */
  lemma PhotoRowShape(run: Run, f: Faults, env: B2.Env, sf: B2.StoreFaults, folder: string, file: FilePart,
                      now: nat, today: string, rules: Rules)
    ensures var r := UploadOne(run, f, env, sf, folder, file, now, today, rules);
      var n := |run.tables.photos|;
      && run.tables.photos <= r.tables.photos
      && |r.tables.photos| <= n + 1
      && (|r.tables.photos| == n + 1 ==>
            var p := r.tables.photos[n];
            && !UploadThrows(env, sf, folder, file)
            && p.b2_file_key == RowKey(env, folder, HashedName(file.uuid, file.name), rules)
            && B2.PublicUrl(env, p.b2_file_key) == Ok(p.public_url)
            && p.optimized_url.None? && p.width == file.width && p.height == file.height
            && (exists i :: 0 <= i < |r.tables.galleries| && r.tables.galleries[i].id == p.gallery_id
                                                         && r.tables.galleries[i].folder_name == GalleryName(folder))
            && (p.user_tag_id.Some? ==>
                  exists i :: 0 <= i < |r.tables.users| && r.tables.users[i].id == p.user_tag_id.value
                                                       && r.tables.users[i].handle == UserHandle(folder)))
  {
    UploadOneSteps(run, f, env, sf, folder, file, now, today, rules);
    if !UploadThrows(env, sf, folder, file) {
      var hashed := HashedName(file.uuid, file.name);
      var key := RowKey(env, folder, hashed, rules);
      var (t1, gallery, e1) := GalleryStep(run.tables, f, GalleryName(folder), today, rules);
      GalleryStepOutcome(run.tables, f, GalleryName(folder), today, rules);
      var (t2, user, e2) := UserStep(t1, f, UserHandle(folder), rules);
      UserStepOutcome(t1, f, UserHandle(folder), rules);
      var (t3, p) := PhotoStep(t2, f, env, gallery, user, key, file);
      PhotoStepOutcome(t2, f, env, gallery, user, key, file);
      if t3.photos != t2.photos {
        var g := gallery.value;
        assert g in t3.galleries;
        var i :| 0 <= i < |t3.galleries| && t3.galleries[i] == g;
        if user.Some? {
          var j :| 0 <= j < |t3.users| && t3.users[j] == user.value;
        }
      }
    }
  }

  // ---------------------------------------------------------------- finding: the row's key is not the stored key

  /**
   * As written, with a folder path that ends in '/', the row names a key under which nothing was
   * stored: the upload put the object under the key with "//", the row lost one '/'.
   */
  lemma AsWrittenRowMissesObject(run: Run, f: Faults, env: B2.Env, sf: B2.StoreFaults, g: string, file: FilePart,
                                 now: nat, today: string)
    requires !B2.Truthy(env.basePath)
    requires PlainFolder(g)
    requires B2Path(g + "/", HashedName(file.uuid, file.name)) !in run.objects
    ensures var r := UploadOne(run, f, env, sf, g + "/", file, now, today, AsWritten);
      |r.tables.photos| == |run.tables.photos| + 1 ==>
        r.tables.photos[|run.tables.photos|].b2_file_key !in r.objects
  {
    var hashed := HashedName(file.uuid, file.name);
    TrailingSlashMissesStoredKey(env, g, hashed);
    UploadOneSteps(run, f, env, sf, g + "/", file, now, today, AsWritten);
    PhotoRowShape(run, f, env, sf, g + "/", file, now, today, AsWritten);
  }

  /** Corrected: writing the key the upload stored under, every new row names the stored object. */
  lemma StoredKeyRowNamesObject(run: Run, f: Faults, env: B2.Env, sf: B2.StoreFaults, folder: string, file: FilePart,
                                now: nat, today: string, rules: Rules)
    requires rules.storedKey
    ensures var r := UploadOne(run, f, env, sf, folder, file, now, today, rules);
      |r.tables.photos| == |run.tables.photos| + 1 ==>
        var p := r.tables.photos[|run.tables.photos|];
        p.b2_file_key in r.objects && r.objects[p.b2_file_key].body == file.body
  {
    FileAccounting(run, f, env, sf, folder, file, now, today, rules);
    PhotoRowShape(run, f, env, sf, folder, file, now, today, rules);
  }

  // ---------------------------------------------------------------- finding: `.single()` never lets the create branches run

  /** As written, no gallery and no user is ever created: a lookup with no row reports an error first. */
  lemma AsWrittenCreatesNothing(run: Run, f: Faults, env: B2.Env, sf: B2.StoreFaults, folder: string, file: FilePart,
                                now: nat, today: string)
    ensures var r := UploadOne(run, f, env, sf, folder, file, now, today, AsWritten);
      r.tables.galleries == run.tables.galleries && r.tables.users == run.tables.users
  {
    UploadOneSteps(run, f, env, sf, folder, file, now, today, AsWritten);
    if !UploadThrows(env, sf, folder, file) {
      var hashed := HashedName(file.uuid, file.name);
      var (t1, gallery, e1) := GalleryStep(run.tables, f, GalleryName(folder), today, AsWritten);
      GalleryStepOutcome(run.tables, f, GalleryName(folder), today, AsWritten);
      var (t2, user, e2) := UserStep(t1, f, UserHandle(folder), AsWritten);
      UserStepOutcome(t1, f, UserHandle(folder), AsWritten);
      PhotoStepOutcome(t2, f, env, gallery, user, RowKey(env, folder, hashed, AsWritten), file);
    }
  }

  /**
   * As written, a folder whose gallery row does not exist yet gets no row: the file records the
   * lookup's "no rows" error and then that no gallery was found or created, and no photo is inserted.
   */
  lemma AsWrittenMissingGallery(run: Run, f: Faults, env: B2.Env, sf: B2.StoreFaults, folder: string, file: FilePart,
                                now: nat, today: string)
    requires !UploadThrows(env, sf, folder, file)
    requires GalleryName(folder) !in f.galleryLookup
    requires forall i :: 0 <= i < |run.tables.galleries| ==> run.tables.galleries[i].folder_name != GalleryName(folder)
    ensures var r := UploadOne(run, f, env, sf, folder, file, now, today, AsWritten);
      && r.processed == run.processed + 1
      && r.tables.photos == run.tables.photos && r.tables.galleries == run.tables.galleries
      && FindGalleryFailed(GalleryName(folder), NotOneRow) in r.errors
      && NoGallery(file.name) in r.errors
  {
    var g := GalleryName(folder);
    MatchingEmpty(run.tables.galleries, FolderOf, g);
    UploadOneSteps(run, f, env, sf, folder, file, now, today, AsWritten);
    var (t1, gallery, e1) := GalleryStep(run.tables, f, g, today, AsWritten);
    assert gallery.None? && e1 == [FindGalleryFailed(g, NotOneRow)];
    var (t2, user, e2) := UserStep(t1, f, UserHandle(folder), AsWritten);
    UserStepOutcome(t1, f, UserHandle(folder), AsWritten);
    var hashed := HashedName(file.uuid, file.name);
    var (t3, p) := PhotoStep(t2, f, env, gallery, user, RowKey(env, folder, hashed, AsWritten), file);
    assert p == Ok([NoGallery(file.name)]);
    var r := UploadOne(run, f, env, sf, folder, file, now, today, AsWritten);
    assert r.errors == run.errors + e1 + e2 + [NoGallery(file.name)];
    assert r.errors[|run.errors|] == FindGalleryFailed(g, NotOneRow);
    assert r.errors[|r.errors| - 1] == NoGallery(file.name);
  }

  /**
   * Corrected: reading "no row" as no row, a folder with no gallery row gets one, titled and dated by
   * the forced sync's rule, and the photo goes into it.
   */
  lemma AbsentGalleryIsCreated(run: Run, f: Faults, env: B2.Env, sf: B2.StoreFaults, folder: string, file: FilePart,
                               now: nat, today: string, rules: Rules)
    requires rules.absentIsNoRow
    requires !UploadThrows(env, sf, folder, file)
    requires GalleryName(folder) !in f.galleryLookup && GalleryName(folder) !in f.galleryInsert
    requires forall i :: 0 <= i < |run.tables.galleries| ==> run.tables.galleries[i].folder_name != GalleryName(folder)
    ensures var r := UploadOne(run, f, env, sf, folder, file, now, today, rules);
      var g := GalleryName(folder);
      var created := Gallery(RowId(run.tables.nextId), SyncVerify.SyncTitle(g), SyncVerify.SyncEventDate(g, today), g, None);
      && r.processed == run.processed + 1
      && r.tables.galleries == run.tables.galleries + [created]
      && (RowKey(env, folder, HashedName(file.uuid, file.name), rules) !in f.photoInsert ==>
            |r.tables.photos| == |run.tables.photos| + 1 && r.tables.photos[|run.tables.photos|].gallery_id == created.id)
  {
    var g := GalleryName(folder);
    MatchingEmpty(run.tables.galleries, FolderOf, g);
    UploadOneSteps(run, f, env, sf, folder, file, now, today, rules);
    var (t1, gallery, e1) := GalleryStep(run.tables, f, g, today, rules);
    assert gallery.Some? && gallery.value.id == RowId(run.tables.nextId);
    var (t2, user, e2) := UserStep(t1, f, UserHandle(folder), rules);
    UserStepOutcome(t1, f, UserHandle(folder), rules);
    var hashed := HashedName(file.uuid, file.name);
    PhotoStepOutcome(t2, f, env, gallery, user, RowKey(env, folder, hashed, rules), file);
    assert B2.PublicUrl(env, RowKey(env, folder, hashed, rules)).Ok?;
  }
}
