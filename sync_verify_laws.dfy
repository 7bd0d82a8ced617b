/**
 * What the forced sync and the consistency analysis promise: writes are additive only, the counters
 * and error list are exact, a run over an already reconciled listing inserts nothing, and the
 * analysis reports what it says it reports.
 */
module SyncVerifyLaws {

  import opened Wrappers
  import opened Strings
  import opened Records
  import opened Db
  import B2
  import opened Keys
  import opened SyncVerify

  // ---------------------------------------------------------------- shapes of keys

  /** Segment 1 of a name, when non-empty, contains no '/'. */
  lemma Segment1LacksSlash(name: string)
    ensures '/' !in Segment1(name)
  {
    SplitPartsLackSeparator(name, '/');
    if 1 < |Split(name, '/')| {
      assert Split(name, '/')[1] in Split(name, '/');
    }
  }

  /** Every gallery the forced sync walks is a non-empty name without '/'. */
  lemma GalleryPathsAreFolderNames(names: seq<string>)
    ensures forall g :: g in GalleryPaths(names) ==> g != "" && '/' !in g
  {
    forall g | g in GalleryPaths(names)
      ensures g != "" && '/' !in g
    {
      var i :| 0 <= i < |names| && PostCounts(names[i]) && Segment1(names[i]) == g;
      Segment1LacksSlash(names[i]);
    }
  }

  /** Under `B2 LuxSync/<g>/` with `g` free of '/', a key has at least three segments and segment 1 is `g`. */
  lemma GalleryObjectShape(key: string, g: string)
    requires '/' !in g && StartsWith(key, SyncRoot + "/" + g + "/")
    ensures |Split(key, '/')| >= 3
    ensures Split(key, '/')[1] == g
    ensures Segment(key, '/', 2) == Some(Split(key[|SyncRoot| + |g| + 2..], '/')[0])
  {
    var p := SyncRoot + "/" + g + "/";
    var rest := key[|p|..];
    assert |p| == |SyncRoot| + |g| + 2;
    assert key == p + rest by {
      assert key[..|p|] == p;
    }
    var tail := g + ['/'] + rest;
    assert key == SyncRoot + ['/'] + tail;
    assert '/' !in SyncRoot;
    SplitAppend(SyncRoot, tail, '/');
    SplitAppend(g, rest, '/');
    SplitOfSeparatorFree(SyncRoot, '/');
    SplitOfSeparatorFree(g, '/');
    assert Split(key, '/') == [SyncRoot] + ([g] + Split(rest, '/'));
  }

  /** Segment 2 is the user handle even when it is the file name itself. */
  lemma HandleOfDirectFile(g: string, fileName: string)
    requires '/' !in g && '/' !in fileName
    ensures Segment(SyncRoot + "/" + g + "/" + fileName, '/', 2) == Some(fileName)
  {
    var key := SyncRoot + "/" + g + "/" + fileName;
    assert StartsWith(key, SyncRoot + "/" + g + "/");
    GalleryObjectShape(key, g);
    assert key[|SyncRoot| + |g| + 2..] == fileName;
    SplitOfSeparatorFree(fileName, '/');
  }

  // ---------------------------------------------------------------- writes are additive, counters exact

  /** Every row that existed is still there, at the same place. */
  predicate IsGalleryError(m: string)
  {
    StartsWith(m, "Failed to create gallery ")
  }

  /** How many messages in the list report a failed gallery creation. */
  function GalleryErrors(es: seq<string>): nat
    decreases |es|
  {
    if |es| == 0 then 0 else GalleryErrors(es[..|es| - 1]) + (if IsGalleryError(es[|es| - 1]) then 1 else 0)
  }

  lemma PhotoErrorsAreNotGalleryErrors(k: string, m: string)
    ensures !IsGalleryError(InsertPhotoFailed(k, m)) && !IsGalleryError(ProcessPhotoFailed(k, m))
    ensures IsGalleryError(CreateGalleryFailed(k, m))
  {
    assert InsertPhotoFailed(k, m)[10] == 'i';
    assert ProcessPhotoFailed(k, m)[10] == 'p';
    assert CreateGalleryFailed(k, m)[..25] == "Failed to create gallery ";
  }

  lemma GalleryErrorsAppend(es: seq<string>, m: string)
    ensures GalleryErrors(es + [m]) == GalleryErrors(es) + (if IsGalleryError(m) then 1 else 0)
  {
    assert (es + [m])[..|es|] == es;
  }

  /** One object: rows only appended, one photo counted per photo row added, no gallery message. */
  lemma ObjectAccounting(run: Run, f: Faults, env: B2.Env, gid: string, key: string)
    ensures var r := SyncObject(run, f, env, gid, key);
      && Extends(run.t, r.t)
      && r.t.galleries == run.t.galleries
      && r.p.galleries == run.p.galleries
      && r.p.photos - run.p.photos == |r.t.photos| - |run.t.photos|
      && run.p.errors <= r.p.errors
      && GalleryErrors(r.p.errors) == GalleryErrors(run.p.errors)
  {
    var r := SyncObject(run, f, env, gid, key);
    if Segment(key, '/', 2).Some? {
      var handle := Segment(key, '/', 2).value;
      var e := EnsureUser(run.t, f, handle);
      EnsureUserKeepsRows(run.t, f, handle);
      var t1 := e.0;
      if !PhotoByKey(t1, f, key).Found? {
        match B2.PublicUrl(env, key)
        case Err(m) =>
          assert r == Run(t1, run.p.(errors := run.p.errors + [ProcessPhotoFailed(key, m)]));
          PhotoErrorsAreNotGalleryErrors(key, m);
          GalleryErrorsAppend(run.p.errors, ProcessPhotoFailed(key, m));
        case Ok(url) =>
          var a := AddPhoto(t1, f, PhotoDraft(gid, e.1, key, url, None, None));
          if a.1.Err? {
            assert r == Run(a.0, run.p.(errors := run.p.errors + [InsertPhotoFailed(key, a.1.error)]));
            PhotoErrorsAreNotGalleryErrors(key, a.1.error);
            GalleryErrorsAppend(run.p.errors, InsertPhotoFailed(key, a.1.error));
          } else {
            assert r == Run(a.0, run.p.(photos := run.p.photos + 1));
          }
      }
    }
  }

  /** Finding or creating a user touches only the users table and the id counter. */
  lemma EnsureUserKeepsRows(t: Tables, f: Faults, handle: string)
    ensures var u := EnsureUser(t, f, handle).0;
      Extends(t, u) && u.galleries == t.galleries && u.photos == t.photos
  {
  }

  lemma {:induction false} ObjectsAccounting(run: Run, f: Faults, env: B2.Env, gid: string, keys: seq<string>)
    ensures var r := SyncObjects(run, f, env, gid, keys);
      && Extends(run.t, r.t)
      && r.t.galleries == run.t.galleries
      && r.p.galleries == run.p.galleries
      && r.p.photos - run.p.photos == |r.t.photos| - |run.t.photos|
      && run.p.errors <= r.p.errors
      && GalleryErrors(r.p.errors) == GalleryErrors(run.p.errors)
    decreases |keys|
  {
    if |keys| > 0 {
      var mid := SyncObjects(run, f, env, gid, keys[..|keys| - 1]);
      ObjectsAccounting(run, f, env, gid, keys[..|keys| - 1]);
      ObjectAccounting(mid, f, env, gid, keys[|keys| - 1]);
    }
  }

  /** One gallery: it is either counted as processed or reported once as a failed creation. */
  lemma GalleryAccounting(run: Run, f: Faults, env: B2.Env, names: seq<string>, today: string, g: string)
    ensures var r := SyncGallery(run, f, env, names, today, g);
      && Extends(run.t, r.t)
      && r.p.photos - run.p.photos == |r.t.photos| - |run.t.photos|
      && run.p.errors <= r.p.errors
      && r.p.galleries + GalleryErrors(r.p.errors) == run.p.galleries + GalleryErrors(run.p.errors) + 1
  {
    var (t1, gid) := EnsureGallery(run.t, f, g, today);
    if gid.Err? {
      PhotoErrorsAreNotGalleryErrors(g, gid.error);
      GalleryErrorsAppend(run.p.errors, CreateGalleryFailed(g, gid.error));
    } else {
      ObjectsAccounting(Run(t1, run.p.(galleries := run.p.galleries + 1)), f, env, gid.value, GalleryObjects(names, g));
    }
  }

  lemma {:induction false} GalleriesAccounting(run: Run, f: Faults, env: B2.Env, names: seq<string>, today: string, gs: seq<string>)
    ensures var r := SyncGalleries(run, f, env, names, today, gs);
      && Extends(run.t, r.t)
      && r.p.photos - run.p.photos == |r.t.photos| - |run.t.photos|
      && run.p.errors <= r.p.errors
      && r.p.galleries + GalleryErrors(r.p.errors) == run.p.galleries + GalleryErrors(run.p.errors) + |gs|
    decreases |gs|
  {
    if |gs| > 0 {
      var mid := SyncGalleries(run, f, env, names, today, gs[..|gs| - 1]);
      GalleriesAccounting(run, f, env, names, today, gs[..|gs| - 1]);
      GalleryAccounting(mid, f, env, names, today, gs[|gs| - 1]);
    }
  }

  /**
   * The forced sync never updates or deletes a row (every old row keeps its place), reports as
   * photosProcessed exactly the photo rows it added, and counts every gallery path either as
   * processed or as one "Failed to create gallery" error.
   */
  lemma ForcedSyncAccounting(t: Tables, f: Faults, env: B2.Env, resp: ListResponse, today: string)
    ensures var (u, r) := ForcedSync(t, f, env, Ok(resp), today);
      var paths := GalleryPaths(FileNames(Entries(ObjectsOf(resp))));
      && r.Synced?
      && Extends(t, u)
      && r.photosProcessed == |u.photos| - |t.photos|
      && r.galleriesProcessed + GalleryErrors(r.errors.GetOr([])) == |paths|
  {
    var names := FileNames(Entries(ObjectsOf(resp)));
    GalleriesAccounting(Run(t, Progress(0, 0, [])), f, env, names, today, GalleryPaths(names));
  }

  // ---------------------------------------------------------------- lookups as the handler reads them

  /** Any lookup error, not only a missing row, makes the sync insert the gallery, even beside an existing one. */
  lemma LookupErrorInsertsGallery(run: Run, f: Faults, env: B2.Env, names: seq<string>, today: string, g: string)
    requires g in f.galleryLookup && g !in f.galleryInsert
    ensures var r := SyncGallery(run, f, env, names, today, g);
      && |r.t.galleries| == |run.t.galleries| + 1
      && r.t.galleries[|run.t.galleries|] == Gallery(RowId(run.t.nextId), SyncTitle(g), SyncEventDate(g, today), g, None)
      && r.p.galleries == run.p.galleries + 1
  {
    var row := Gallery(RowId(run.t.nextId), SyncTitle(g), SyncEventDate(g, today), g, None);
    var e := EnsureGallery(run.t, f, g, today);
    assert GalleryByFolder(run.t, f, g).Failed?;
    assert e == (run.t.(galleries := run.t.galleries + [row], nextId := run.t.nextId + 1), Ok(row.id));
    var start := Run(e.0, run.p.(galleries := run.p.galleries + 1));
    SyncGalleryUnfolds(run, f, env, names, today, g);
    ObjectsAccounting(start, f, env, row.id, GalleryObjects(names, g));
  }

  /** A failed gallery creation adds exactly one error and touches nothing else: its objects are skipped. */
  lemma FailedGalleryCreation(run: Run, f: Faults, env: B2.Env, names: seq<string>, today: string, g: string)
    requires !GalleryByFolder(run.t, f, g).Found? && g in f.galleryInsert
    ensures SyncGallery(run, f, env, names, today, g)
         == Run(run.t, run.p.(errors := run.p.errors + [CreateGalleryFailed(g, f.message)]))
  {
  }

  /** A failed user creation is not an error: the photo is still inserted, with no user tag. */
  lemma FailedUserStillInsertsPhoto(run: Run, f: Faults, env: B2.Env, gid: string, key: string, handle: string)
    requires Segment(key, '/', 2) == Some(handle)
    requires !UserByHandle(run.t, f, handle).Found? && handle in f.userInsert
    requires !PhotoByKey(run.t, f, key).Found? && key !in f.photoInsert
    requires B2.PublicUrl(env, key).Ok?
    ensures SyncObject(run, f, env, gid, key) ==
      Run(run.t.(photos := run.t.photos + [PhotoOf(RowId(run.t.nextId), PhotoDraft(gid, None, key, B2.PublicUrl(env, key).value, None, None))],
                 nextId := run.t.nextId + 1),
          run.p.(photos := run.p.photos + 1))
  {
  }

  /** A photo row the sync adds: the gallery's id, the user's id if any, the key, its public URL and null dimensions. */
  lemma InsertedRowShape(run: Run, f: Faults, env: B2.Env, gid: string, key: string)
    requires |SyncObject(run, f, env, gid, key).t.photos| > |run.t.photos|
    ensures var r := SyncObject(run, f, env, gid, key);
      var row := r.t.photos[|r.t.photos| - 1];
      && |r.t.photos| == |run.t.photos| + 1
      && B2.PublicUrl(env, key).Ok?
      && row.gallery_id == gid && row.b2_file_key == key && row.public_url == B2.PublicUrl(env, key).value
      && row.width.None? && row.height.None? && row.optimized_url.None?
      && r.p.photos == run.p.photos + 1
      && Segment(key, '/', 2).Some?
      && row.user_tag_id == EnsureUser(run.t, f, Segment(key, '/', 2).value).1
      && (UserByHandle(run.t, f, Segment(key, '/', 2).value).Found? ==>
            row.user_tag_id == Some(UserByHandle(run.t, f, Segment(key, '/', 2).value).row.id))
  {
  }

  // ---------------------------------------------------------------- idempotence by key

  /** The lookups never fail on their own (inserts may still fail). */
  predicate LookupsWork(f: Faults)
  {
    f.galleryLookup == {} && f.userLookup == {} && f.photoLookup == {}
  }

  /** Each folder name, handle and photo key is carried by at most one row. */
  ghost predicate AtMostOne(t: Tables)
  {
    && (forall k :: |Matching(t.galleries, FolderOf, k)| <= 1)
    && (forall k :: |Matching(t.users, HandleOf, k)| <= 1)
    && (forall k :: |Matching(t.photos, KeyOf, k)| <= 1)
  }

  /** The object's photo row and its user both exist, exactly once. */
  predicate ObjectSettled(t: Tables, key: string)
  {
    && |Matching(t.photos, KeyOf, key)| == 1
    && (Segment(key, '/', 2).Some? ==> |Matching(t.users, HandleOf, Segment(key, '/', 2).value)| == 1)
  }

  /** Every gallery in `gs` and every one of its objects is present exactly once. */
  predicate Settled(t: Tables, names: seq<string>, gs: seq<string>)
  {
    forall g :: g in gs ==>
      && |Matching(t.galleries, FolderOf, g)| == 1
      && (forall k :: k in GalleryObjects(names, g) ==> ObjectSettled(t, k))
  }

  lemma ObjectNoOp(run: Run, f: Faults, env: B2.Env, gid: string, key: string)
    requires LookupsWork(f) && ObjectSettled(run.t, key)
    ensures SyncObject(run, f, env, gid, key) == run
  {
  }

  lemma {:induction false} ObjectsNoOp(run: Run, f: Faults, env: B2.Env, gid: string, keys: seq<string>)
    requires LookupsWork(f)
    requires forall k :: k in keys ==> ObjectSettled(run.t, k)
    ensures SyncObjects(run, f, env, gid, keys) == run
    decreases |keys|
  {
    if |keys| > 0 {
      var front := keys[..|keys| - 1];
      assert forall k :: k in front ==> k in keys;
      ObjectsNoOp(run, f, env, gid, front);
      assert keys[|keys| - 1] in keys;
      ObjectNoOp(run, f, env, gid, keys[|keys| - 1]);
    }
  }

  /** One gallery: its find-or-create, then either the failure message or its objects. */
  lemma SyncGalleryUnfolds(run: Run, f: Faults, env: B2.Env, names: seq<string>, today: string, g: string)
    ensures var e := EnsureGallery(run.t, f, g, today);
      SyncGallery(run, f, env, names, today, g)
      == if e.1.Err? then Run(e.0, run.p.(errors := run.p.errors + [CreateGalleryFailed(g, e.1.error)]))
         else SyncObjects(Run(e.0, run.p.(galleries := run.p.galleries + 1)), f, env, e.1.value, GalleryObjects(names, g))
  {
  }

  lemma {:induction false} GalleriesNoOp(run: Run, f: Faults, env: B2.Env, names: seq<string>, today: string, gs: seq<string>)
    requires LookupsWork(f) && Settled(run.t, names, gs)
    ensures SyncGalleries(run, f, env, names, today, gs) == Run(run.t, run.p.(galleries := run.p.galleries + |gs|))
    decreases |gs|
  {
    if |gs| > 0 {
      var front := gs[..|gs| - 1];
      var g := gs[|gs| - 1];
      assert forall x :: x in front ==> x in gs;
      GalleriesNoOp(run, f, env, names, today, front);
      var mid := Run(run.t, run.p.(galleries := run.p.galleries + |front|));
      assert g in gs;
      assert SyncGalleries(run, f, env, names, today, gs) == SyncGallery(mid, f, env, names, today, g);
      GalleryNoOp(mid, f, env, names, today, g);
    }
  }

  /** A settled gallery is found, not created, and its settled objects change nothing: only the counter moves. */
  lemma GalleryNoOp(run: Run, f: Faults, env: B2.Env, names: seq<string>, today: string, g: string)
    requires LookupsWork(f) && |Matching(run.t.galleries, FolderOf, g)| == 1
    requires forall k :: k in GalleryObjects(names, g) ==> ObjectSettled(run.t, k)
    ensures SyncGallery(run, f, env, names, today, g) == Run(run.t, run.p.(galleries := run.p.galleries + 1))
  {
    var lookup := GalleryByFolder(run.t, f, g);
    assert lookup.Found?;
    var e := EnsureGallery(run.t, f, g, today);
    assert e == (run.t, Ok(lookup.row.id));
    SyncGalleryUnfolds(run, f, env, names, today, g);
    var start := Run(run.t, run.p.(galleries := run.p.galleries + 1));
    ObjectsNoOp(start, f, env, lookup.row.id, GalleryObjects(names, g));
  }

  /** Row counts per key only grow as rows are appended. */
  lemma {:induction false} MatchingGrows<T>(rows: seq<T>, more: seq<T>, key: T -> string, k: string)
    requires rows <= more
    ensures |Matching(rows, key, k)| <= |Matching(more, key, k)|
    decreases |more|
  {
    if |rows| < |more| {
      var front := more[..|more| - 1];
      assert rows <= front;
      MatchingGrows(rows, front, key, k);
    } else {
      assert rows == more;
    }
  }

  /** Appending a row whose key is new keeps every key at most once and puts that key exactly once. */
  lemma AppendFresh<T>(rows: seq<T>, x: T, key: T -> string)
    requires forall k :: |Matching(rows, key, k)| <= 1
    requires |Matching(rows, key, key(x))| == 0
    ensures forall k :: |Matching(rows + [x], key, k)| <= 1
    ensures |Matching(rows + [x], key, key(x))| == 1
  {
    forall k
      ensures |Matching(rows + [x], key, k)| <= 1
    {
      MatchingAppend(rows, x, key, k);
    }
    MatchingAppend(rows, x, key, key(x));
  }

  /** Under a plan with no faults, a missing user is created, and no key becomes duplicated. */
  lemma EnsureUserSettles(t: Tables, handle: string)
    requires AtMostOne(t)
    ensures var (u, _) := EnsureUser(t, NoFaults(), handle);
      && AtMostOne(u) && Extends(t, u)
      && |Matching(u.users, HandleOf, handle)| == 1
      && u.galleries == t.galleries && u.photos == t.photos
  {
    var f := NoFaults();
    if !UserByHandle(t, f, handle).Found? {
      var (u, r) := AddUser(t, f, handle, handle);
      AppendFresh(t.users, r.value, HandleOf);
    }
  }

  /** `getPublicUrl` has an origin to use. */
  predicate UrlConfigured(env: B2.Env)
  {
    B2.Truthy(env.publicUrl) || B2.Truthy(env.endpoint)
  }

  /** Under a plan with no faults and a configured public URL, an object gets its row and its user. */
  lemma ObjectSettles(run: Run, env: B2.Env, gid: string, key: string)
    requires AtMostOne(run.t) && UrlConfigured(env) && Segment(key, '/', 2).Some?
    ensures var r := SyncObject(run, NoFaults(), env, gid, key);
      AtMostOne(r.t) && Extends(run.t, r.t) && ObjectSettled(r.t, key)
  {
    var f := NoFaults();
    var handle := Segment(key, '/', 2).value;
    EnsureUserSettles(run.t, handle);
    var (t1, userId) := EnsureUser(run.t, f, handle);
    if !PhotoByKey(t1, f, key).Found? {
      var (t2, r) := AddPhoto(t1, f, PhotoDraft(gid, userId, key, B2.PublicUrl(env, key).value, None, None));
      AppendFresh(t1.photos, r.value, KeyOf);
    }
  }

  /** Once settled, an object stays settled as rows are appended without duplicating a key. */
  lemma ObjectStaysSettled(t: Tables, u: Tables, key: string)
    requires Extends(t, u) && AtMostOne(u) && ObjectSettled(t, key)
    ensures ObjectSettled(u, key)
  {
    MatchingGrows(t.photos, u.photos, KeyOf, key);
    if Segment(key, '/', 2).Some? {
      MatchingGrows(t.users, u.users, HandleOf, Segment(key, '/', 2).value);
    }
  }

  lemma {:induction false} ObjectsSettle(run: Run, env: B2.Env, gid: string, keys: seq<string>)
    requires AtMostOne(run.t) && UrlConfigured(env)
    requires forall k :: k in keys ==> Segment(k, '/', 2).Some?
    ensures var r := SyncObjects(run, NoFaults(), env, gid, keys);
      && AtMostOne(r.t) && Extends(run.t, r.t) && r.t.galleries == run.t.galleries
      && forall k :: k in keys ==> ObjectSettled(r.t, k)
    decreases |keys|
  {
    if |keys| > 0 {
      var front := keys[..|keys| - 1];
      var last := keys[|keys| - 1];
      assert forall k :: k in front ==> k in keys;
      ObjectsSettle(run, env, gid, front);
      var mid := SyncObjects(run, NoFaults(), env, gid, front);
      assert last in keys;
      ObjectSettles(mid, env, gid, last);
      ObjectAccounting(mid, NoFaults(), env, gid, last);
      var r := SyncObjects(run, NoFaults(), env, gid, keys);
      forall k | k in keys
        ensures ObjectSettled(r.t, k)
      {
        if k != last {
          assert k in front;
          ObjectStaysSettled(mid.t, r.t, k);
        }
      }
    }
  }

  /** The gallery row exists exactly once and so does each of its objects' rows. */
  ghost predicate GallerySettled(t: Tables, names: seq<string>, g: string)
  {
    && |Matching(t.galleries, FolderOf, g)| == 1
    && (forall k :: k in GalleryObjects(names, g) ==> ObjectSettled(t, k))
  }

  lemma GalleryStaysSettled(t: Tables, u: Tables, names: seq<string>, g: string)
    requires Extends(t, u) && AtMostOne(u) && GallerySettled(t, names, g)
    ensures GallerySettled(u, names, g)
  {
    MatchingGrows(t.galleries, u.galleries, FolderOf, g);
    forall k | k in GalleryObjects(names, g)
      ensures ObjectSettled(u, k)
    {
      ObjectStaysSettled(t, u, k);
    }
  }

  /** Under a plan with no faults, a missing gallery is created, and no key becomes duplicated. */
  lemma EnsureGallerySettles(t: Tables, g: string, today: string)
    requires AtMostOne(t)
    ensures var e := EnsureGallery(t, NoFaults(), g, today);
      && e.1.Ok? && AtMostOne(e.0) && Extends(t, e.0)
      && |Matching(e.0.galleries, FolderOf, g)| == 1
  {
    var f := NoFaults();
    if !GalleryByFolder(t, f, g).Found? {
      var (_, r) := AddGallery(t, f, SyncTitle(g), SyncEventDate(g, today), g);
      AppendFresh(t.galleries, r.value, FolderOf);
    }
  }

  /** Every object of a gallery whose name has no '/' has a segment 2. */
  lemma GalleryObjectsHaveHandles(names: seq<string>, g: string)
    requires '/' !in g
    ensures forall k :: k in GalleryObjects(names, g) ==> Segment(k, '/', 2).Some?
  {
    forall k | k in GalleryObjects(names, g)
      ensures Segment(k, '/', 2).Some?
    {
      GalleryObjectShape(k, g);
    }
  }

  lemma GallerySettles(run: Run, env: B2.Env, names: seq<string>, today: string, g: string)
    requires AtMostOne(run.t) && UrlConfigured(env) && '/' !in g
    ensures var r := SyncGallery(run, NoFaults(), env, names, today, g);
      AtMostOne(r.t) && Extends(run.t, r.t) && GallerySettled(r.t, names, g)
  {
    var e := EnsureGallery(run.t, NoFaults(), g, today);
    EnsureGallerySettles(run.t, g, today);
    GalleryObjectsHaveHandles(names, g);
    var start := Run(e.0, run.p.(galleries := run.p.galleries + 1));
    SyncGalleryUnfolds(run, NoFaults(), env, names, today, g);
    ObjectsSettle(start, env, e.1.value, GalleryObjects(names, g));
  }

  lemma {:induction false} GalleriesSettle(run: Run, env: B2.Env, names: seq<string>, today: string, gs: seq<string>)
    requires AtMostOne(run.t) && UrlConfigured(env)
    requires forall g :: g in gs ==> '/' !in g
    ensures var r := SyncGalleries(run, NoFaults(), env, names, today, gs);
      AtMostOne(r.t) && Extends(run.t, r.t) && Settled(r.t, names, gs)
    decreases |gs|
  {
    if |gs| > 0 {
      var front := gs[..|gs| - 1];
      var last := gs[|gs| - 1];
      assert forall x :: x in front ==> x in gs;
      GalleriesSettle(run, env, names, today, front);
      var mid := SyncGalleries(run, NoFaults(), env, names, today, front);
      assert last in gs;
      GallerySettles(mid, env, names, today, last);
      var r := SyncGalleries(run, NoFaults(), env, names, today, gs);
      forall g | g in gs
        ensures GallerySettled(r.t, names, g)
      {
        if g != last {
          assert g in front;
          assert GallerySettled(mid.t, names, g);
          GalleryStaysSettled(mid.t, r.t, names, g);
        }
      }
    }
  }

  /**
   * Idempotence by key: once a fault-free sync has run over a listing (starting from tables with no
   * duplicated folder, handle or key), a second run over the same listing changes no table and
   * reports every gallery as processed, no photo processed and no error, even if inserts would fail.
   */
  lemma ForcedSyncIdempotent(t: Tables, env: B2.Env, resp: ListResponse, today1: string, f2: Faults, today2: string)
    requires AtMostOne(t) && UrlConfigured(env) && LookupsWork(f2)
    ensures var (t1, _) := ForcedSync(t, NoFaults(), env, Ok(resp), today1);
      var (t2, r2) := ForcedSync(t1, f2, env, Ok(resp), today2);
      var paths := GalleryPaths(FileNames(Entries(ObjectsOf(resp))));
      && t2 == t1
      && r2 == SyncedResponse(Progress(|paths|, 0, []))
      && r2.photosProcessed == 0 && r2.errors.None?
  {
    var names := FileNames(Entries(ObjectsOf(resp)));
    var paths := GalleryPaths(names);
    GalleryPathsAreFolderNames(names);
    GalleriesSettle(Run(t, Progress(0, 0, [])), env, names, today1, paths);
    var t1 := SyncGalleries(Run(t, Progress(0, 0, [])), NoFaults(), env, names, today1, paths).t;
    GalleriesNoOp(Run(t1, Progress(0, 0, [])), f2, env, names, today2, paths);
  }

  // ---------------------------------------------------------------- per-item failure isolation

  /** The object ended with a photo row, or its failure is in the error list. */
  predicate ObjectAccounted(run: Run, f: Faults, key: string)
  {
    || |Matching(run.t.photos, KeyOf, key)| >= 1
    || InsertPhotoFailed(key, f.message) in run.p.errors
    || ProcessPhotoFailed(key, B2.PublicUrlMissing) in run.p.errors
  }

  /** The gallery's creation failure is reported, or its row exists and every one of its objects is accounted for. */
  ghost predicate GalleryAccounted(run: Run, f: Faults, names: seq<string>, g: string)
  {
    || CreateGalleryFailed(g, f.message) in run.p.errors
    || (&& |Matching(run.t.galleries, FolderOf, g)| >= 1
        && forall k :: k in GalleryObjects(names, g) ==> ObjectAccounted(run, f, k))
  }

  predicate Later(a: Run, b: Run)
  {
    Extends(a.t, b.t) && a.p.errors <= b.p.errors
  }

  lemma PrefixMember(a: seq<string>, b: seq<string>, x: string)
    requires a <= b && x in a
    ensures x in b
  {
    var i :| 0 <= i < |a| && a[i] == x;
    assert b[i] == x;
  }

  lemma ObjectStaysAccounted(a: Run, b: Run, f: Faults, key: string)
    requires Later(a, b) && ObjectAccounted(a, f, key)
    ensures ObjectAccounted(b, f, key)
  {
    MatchingGrows(a.t.photos, b.t.photos, KeyOf, key);
    if InsertPhotoFailed(key, f.message) in a.p.errors {
      PrefixMember(a.p.errors, b.p.errors, InsertPhotoFailed(key, f.message));
    }
    if ProcessPhotoFailed(key, B2.PublicUrlMissing) in a.p.errors {
      PrefixMember(a.p.errors, b.p.errors, ProcessPhotoFailed(key, B2.PublicUrlMissing));
    }
  }

  /** Whatever the fault plan, an object with a handle segment ends with a row or an error naming it. */
  lemma ObjectIsAccounted(run: Run, f: Faults, env: B2.Env, gid: string, key: string)
    requires Segment(key, '/', 2).Some?
    ensures ObjectAccounted(SyncObject(run, f, env, gid, key), f, key)
  {
    var handle := Segment(key, '/', 2).value;
    var (t1, userId) := EnsureUser(run.t, f, handle);
    assert t1.photos == run.t.photos;
    if !PhotoByKey(t1, f, key).Found? && B2.PublicUrl(env, key).Ok? {
      var (t2, r) := AddPhoto(t1, f, PhotoDraft(gid, userId, key, B2.PublicUrl(env, key).value, None, None));
      if r.Ok? {
        MatchingAppend(t1.photos, r.value, KeyOf, key);
      }
    }
  }

  lemma LaterTransitive(a: Run, b: Run, c: Run)
    requires Later(a, b) && Later(b, c)
    ensures Later(a, c)
  {
  }

  lemma ObjectIsLater(run: Run, f: Faults, env: B2.Env, gid: string, key: string)
    ensures Later(run, SyncObject(run, f, env, gid, key))
  {
    ObjectAccounting(run, f, env, gid, key);
  }

  lemma {:induction false} ObjectsAreAccounted(run: Run, f: Faults, env: B2.Env, gid: string, keys: seq<string>)
    requires forall k :: k in keys ==> Segment(k, '/', 2).Some?
    ensures Later(run, SyncObjects(run, f, env, gid, keys))
    ensures forall k :: k in keys ==> ObjectAccounted(SyncObjects(run, f, env, gid, keys), f, k)
    decreases |keys|
  {
    if |keys| > 0 {
      var front := keys[..|keys| - 1];
      var last := keys[|keys| - 1];
      assert keys == front + [last];
      ObjectsAreAccounted(run, f, env, gid, front);
      var mid := SyncObjects(run, f, env, gid, front);
      var r := SyncObject(mid, f, env, gid, last);
      assert r == SyncObjects(run, f, env, gid, keys);
      ObjectIsAccounted(mid, f, env, gid, last);
      ObjectIsLater(mid, f, env, gid, last);
      LaterTransitive(run, mid, r);
      forall k | k in keys
        ensures ObjectAccounted(r, f, k)
      {
        if k != last {
          ObjectStaysAccounted(mid, r, f, k);
        }
      }
    }
  }

  lemma GalleryStaysAccounted(a: Run, b: Run, f: Faults, names: seq<string>, g: string)
    requires Later(a, b) && GalleryAccounted(a, f, names, g)
    ensures GalleryAccounted(b, f, names, g)
  {
    if CreateGalleryFailed(g, f.message) in a.p.errors {
      PrefixMember(a.p.errors, b.p.errors, CreateGalleryFailed(g, f.message));
    } else {
      MatchingGrows(a.t.galleries, b.t.galleries, FolderOf, g);
      forall k | k in GalleryObjects(names, g)
        ensures ObjectAccounted(b, f, k)
      {
        ObjectStaysAccounted(a, b, f, k);
      }
    }
  }

  lemma EnsureGalleryOutcome(t: Tables, f: Faults, g: string, today: string)
    ensures var (u, gid) := EnsureGallery(t, f, g, today);
      && Extends(t, u)
      && (gid.Ok? ==> |Matching(u.galleries, FolderOf, g)| >= 1)
      && (gid.Err? ==> gid.error == f.message)
  {
    var (u, gid) := EnsureGallery(t, f, g, today);
    if GalleryByFolder(t, f, g).Found? {
      assert |Matching(t.galleries, FolderOf, g)| == 1;
    } else if gid.Ok? {
      MatchingAppend(t.galleries, u.galleries[|t.galleries|], FolderOf, g);
    }
  }

  lemma GalleryIsAccounted(run: Run, f: Faults, env: B2.Env, names: seq<string>, today: string, g: string)
    requires '/' !in g
    ensures Later(run, SyncGallery(run, f, env, names, today, g))
    ensures GalleryAccounted(SyncGallery(run, f, env, names, today, g), f, names, g)
  {
    var e := EnsureGallery(run.t, f, g, today);
    EnsureGalleryOutcome(run.t, f, g, today);
    if e.1.Ok? {
      SyncGalleryUnfolds(run, f, env, names, today, g);
      GalleryObjectsAccounted(run, e.0, f, env, names, g, e.1.value);
    } else {
      var r := Run(e.0, run.p.(errors := run.p.errors + [CreateGalleryFailed(g, e.1.error)]));
      SyncGalleryUnfolds(run, f, env, names, today, g);
      assert r.p.errors[|run.p.errors|] == CreateGalleryFailed(g, f.message);
    }
  }

  /** Once the gallery's row exists, syncing its objects accounts for every one of them. */
  lemma GalleryObjectsAccounted(run: Run, t1: Tables, f: Faults, env: B2.Env, names: seq<string>, g: string, gid: string)
    requires '/' !in g
    requires Extends(run.t, t1) && |Matching(t1.galleries, FolderOf, g)| >= 1
    ensures var r := SyncObjects(Run(t1, run.p.(galleries := run.p.galleries + 1)), f, env, gid, GalleryObjects(names, g));
      && Later(run, r)
      && |Matching(r.t.galleries, FolderOf, g)| >= 1
      && forall k :: k in GalleryObjects(names, g) ==> ObjectAccounted(r, f, k)
  {
    GalleryObjectsHaveHandles(names, g);
    var start := Run(t1, run.p.(galleries := run.p.galleries + 1));
    var objects := GalleryObjects(names, g);
    var r := SyncObjects(start, f, env, gid, objects);
    ObjectsAreAccounted(start, f, env, gid, objects);
    assert Later(run, start);
    LaterTransitive(run, start, r);
    MatchingGrows(t1.galleries, r.t.galleries, FolderOf, g);
  }

  lemma {:induction false} GalleriesAreAccounted(run: Run, f: Faults, env: B2.Env, names: seq<string>, today: string, gs: seq<string>)
    requires forall g :: g in gs ==> '/' !in g
    ensures Later(run, SyncGalleries(run, f, env, names, today, gs))
    ensures forall g :: g in gs ==> GalleryAccounted(SyncGalleries(run, f, env, names, today, gs), f, names, g)
    decreases |gs|
  {
    if |gs| > 0 {
      var front := gs[..|gs| - 1];
      var last := gs[|gs| - 1];
      assert gs == front + [last];
      GalleriesAreAccounted(run, f, env, names, today, front);
      var mid := SyncGalleries(run, f, env, names, today, front);
      var r := SyncGallery(mid, f, env, names, today, last);
      assert r == SyncGalleries(run, f, env, names, today, gs);
      GalleryIsAccounted(mid, f, env, names, today, last);
      LaterTransitive(run, mid, r);
      forall g | g in gs
        ensures GalleryAccounted(r, f, names, g)
      {
        if g != last {
          GalleryStaysAccounted(mid, r, f, names, g);
        }
      }
    }
  }

  /**
   * Per-item failure isolation: whatever fails, every gallery path either has its creation failure
   * reported or has its row, and then every one of its objects has a photo row or an error naming it.
   */
  lemma ForcedSyncAccountsForEveryObject(t: Tables, f: Faults, env: B2.Env, resp: ListResponse, today: string)
    ensures var names := FileNames(Entries(ObjectsOf(resp)));
      var run := SyncGalleries(Run(t, Progress(0, 0, [])), f, env, names, today, GalleryPaths(names));
      && ForcedSync(t, f, env, Ok(resp), today) == (run.t, SyncedResponse(run.p))
      && forall g :: g in GalleryPaths(names) ==> GalleryAccounted(run, f, names, g)
  {
    var names := FileNames(Entries(ObjectsOf(resp)));
    GalleryPathsAreFolderNames(names);
    GalleriesAreAccounted(Run(t, Progress(0, 0, [])), f, env, names, today, GalleryPaths(names));
  }

  // ---------------------------------------------------------------- the consistency analysis

  predicate SelectsWork(f: Faults)
  {
    !f.selectGalleries && !f.selectPhotos && !f.selectUsers
  }

  /** An empty galleries table is reported first, and the missing-folder check is skipped. */
  lemma EmptyGalleriesReported(t: Tables, f: Faults, resp: ListResponse)
    requires SelectsWork(f) && |t.galleries| == 0
    ensures var r := Verify(t, f, Ok(resp));
      && r.Analyzed?
      && r.analysis.discrepancies[0] == NoGalleries
      && forall d :: d in r.analysis.discrepancies ==> !StartsWith(d, MissingPrefix)
  {
    var r := Verify(t, f, Ok(resp));
    var ds := r.analysis.discrepancies;
    forall d | d in ds
      ensures !StartsWith(d, MissingPrefix)
    {
      assert d[0] != 'M';
    }
  }

  /** Every message the analysis can push has one of five forms. */
  lemma DiscrepancyForms(galleries: seq<Gallery>, photos: seq<Photo>, users: seq<User>, folders: seq<string>)
    ensures forall d :: d in Discrepancies(galleries, photos, users, folders) ==>
      d == NoGalleries || d == NoPhotos || d == NoUsers || StartsWith(d, MissingPrefix) || IsOrphanReport(d)
  {
  }

  /** The "gallery folders but database is empty" branch can never be taken. */
  lemma FoldersButEmptyNeverReported(t: Tables, f: Faults, listing: Result<ListResponse, string>)
    ensures var r := Verify(t, f, listing);
      r.Analyzed? ==> FoldersButEmpty !in r.analysis.discrepancies
  {
    var r := Verify(t, f, listing);
    if r.Analyzed? {
      DiscrepancyForms(t.galleries, t.photos, t.users, r.analysis.galleryFolders);
      forall d | d in r.analysis.discrepancies
        ensures d != FoldersButEmpty
      {
        assert FoldersButEmpty[0] == 'B';
        assert d[0] != 'B';
      }
    }
  }

  /** The message `Found N photos ...` starts with "Found ". */
  predicate IsOrphanReport(d: string)
  {
    StartsWith(d, "Found ")
  }

  /**
   * With a non-empty galleries table, a missing-galleries message appears exactly when some listed
   * folder is no gallery's folder_name, and it lists exactly those folders.
   */
  lemma MissingFoldersReported(t: Tables, f: Faults, resp: ListResponse)
    requires SelectsWork(f) && |t.galleries| > 0
    ensures var r := Verify(t, f, Ok(resp));
      var folders := r.analysis.galleryFolders;
      var missing := Missing(folders, FolderNames(t.galleries));
      && r.Analyzed?
      && ((exists d :: d in r.analysis.discrepancies && StartsWith(d, MissingPrefix))
          <==> exists x :: x in folders && forall i :: 0 <= i < |t.galleries| ==> t.galleries[i].folder_name != x)
      && (forall x :: x in missing <==> x in folders && forall i :: 0 <= i < |t.galleries| ==> t.galleries[i].folder_name != x)
  {
    var r := Verify(t, f, Ok(resp));
    var folders := r.analysis.galleryFolders;
    assert r.analysis.discrepancies == Discrepancies(t.galleries, t.photos, t.users, folders);
    MissingMembers(folders, t.galleries);
    MissingMessage(t.galleries, t.photos, t.users, folders);
    var missing := Missing(folders, FolderNames(t.galleries));
    if |missing| > 0 {
      assert missing[0] in missing;
    }
  }

  /** A folder is missing exactly when it is listed and no gallery has it as its folder_name. */
  lemma MissingMembers(folders: seq<string>, galleries: seq<Gallery>)
    ensures forall x :: x in Missing(folders, FolderNames(galleries)) <==>
      x in folders && forall i :: 0 <= i < |galleries| ==> galleries[i].folder_name != x
  {
    var known := FolderNames(galleries);
    forall x
      ensures x in known <==> exists i :: 0 <= i < |galleries| && galleries[i].folder_name == x
    {
      if x in known {
        var i :| 0 <= i < |known| && known[i] == x;
      }
    }
  }

  /** With galleries present, a missing-galleries message is pushed exactly when some folder is missing, and it lists them. */
  lemma MissingMessage(galleries: seq<Gallery>, photos: seq<Photo>, users: seq<User>, folders: seq<string>)
    requires |galleries| > 0
    ensures var missing := Missing(folders, FolderNames(galleries));
      (exists d :: d in Discrepancies(galleries, photos, users, folders) && StartsWith(d, MissingPrefix)) <==> |missing| > 0
  {
    var missing := Missing(folders, FolderNames(galleries));
    var ds := Discrepancies(galleries, photos, users, folders);
    forall d | d in ds && StartsWith(d, MissingPrefix)
      ensures |missing| > 0
    {
      assert d[0] == 'M';
    }
    if |missing| > 0 {
      assert ds[0] == MissingPrefix + JoinComma(missing);
      assert StartsWith(ds[0], MissingPrefix);
    }
  }

  /** Photos pointing at no gallery are counted only when both tables are non-empty, and only then reported. */
  lemma OrphansReported(t: Tables, f: Faults, resp: ListResponse)
    requires SelectsWork(f)
    ensures var r := Verify(t, f, Ok(resp));
      && r.Analyzed?
      && ((exists d :: d in r.analysis.discrepancies && IsOrphanReport(d))
          <==> (&& |t.photos| > 0 && |t.galleries| > 0
                && exists i :: 0 <= i < |t.photos| && t.photos[i].gallery_id !in GalleryIds(t.galleries)))
  {
    var r := Verify(t, f, Ok(resp));
    assert r.analysis.discrepancies == Discrepancies(t.galleries, t.photos, t.users, r.analysis.galleryFolders);
    OrphanMessage(t.galleries, t.photos, t.users, r.analysis.galleryFolders);
  }

  /** The orphan message is pushed exactly when both tables are non-empty and some photo's gallery id is unknown. */
  lemma OrphanMessage(galleries: seq<Gallery>, photos: seq<Photo>, users: seq<User>, folders: seq<string>)
    ensures (exists d :: d in Discrepancies(galleries, photos, users, folders) && IsOrphanReport(d))
      <==> (&& |photos| > 0 && |galleries| > 0
            && exists i :: 0 <= i < |photos| && photos[i].gallery_id !in GalleryIds(galleries))
  {
    var ds := Discrepancies(galleries, photos, users, folders);
    forall d | d in ds && IsOrphanReport(d)
      ensures |photos| > 0 && |galleries| > 0 && Orphans(photos, GalleryIds(galleries)) > 0
    {
      assert d[0] == 'F';
    }
    if |photos| > 0 && |galleries| > 0 && Orphans(photos, GalleryIds(galleries)) > 0 {
      var d := ds[|ds| - 1];
      assert d in ds && IsOrphanReport(d);
    }
  }

  /** The sample is the first ten retained listing entries, or all of them when there are fewer. */
  lemma SampleIsFirstTen(t: Tables, f: Faults, resp: ListResponse)
    requires SelectsWork(f)
    ensures var r := Verify(t, f, Ok(resp));
      var entries := Entries(ObjectsOf(resp));
      && r.Analyzed?
      && |r.sample| == (if |entries| < 10 then |entries| else 10)
      && r.sample <= entries
      && r.analysis.objectCount == |entries|
  {
  }
}
