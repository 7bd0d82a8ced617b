/**
 * What the older sync promises and what it does not: writes are additive, every listed photo is
 * inserted on every run (so a second run over the same listing inserts the same photos again), a
 * gallery row is created only when the folder-name lookup gives no row, and photo failures are
 * isolated.
 */
module GallerySyncLaws {

  import opened Wrappers
  import opened Strings
  import opened Records
  import opened Db
  import opened GalleryParser
  import opened GallerySync

  // ---------------------------------------------------------------- the title and date heuristic

  /** The sync's own date/title rule gives what the parser's folder parse gives. */
  lemma NewGalleryAgreesWithParser(folder: string, today: string, cover: Option<string>)
    ensures NewGallery(folder, today) == (ParseFolder(folder, today, cover).title, ParseFolder(folder, today, cover).eventDate)
  {
    assert SyncDate(folder) == ParserDate(folder);
  }

  /** A date, white space and a one-line title give that title, trimmed, and that date. */
  lemma NewGalleryOfDatedFolder(date: string, w: string, title: string, today: string)
    requires |date| == 10 && SyncDate(date)
    requires |w| >= 1 && forall i :: 0 <= i < |w| ==> IsSpace(w[i])
    requires |title| >= 1 && !IsSpace(title[0]) && NoLineTerminator(title)
    ensures NewGallery(date + w + title, today) == (Trim(title), date)
  {
    ParseDatedFolder(date, w, title, today, None);
    NewGalleryAgreesWithParser(date + w + title, today, None);
  }

  // ---------------------------------------------------------------- photo inserts

  /** The photos whose insert does not fail, in order. */
  function Unfaulted(failing: set<string>, ps: seq<Photo>): (r: seq<Photo>)
    ensures |r| <= |ps|
    decreases |ps|
  {
    if |ps| == 0 then []
    else
      var p := ps[|ps| - 1];
      Unfaulted(failing, ps[..|ps| - 1]) + (if p.b2_file_key in failing then [] else [p])
  }

  lemma {:induction false} UnfaultedAll(ps: seq<Photo>)
    ensures Unfaulted({}, ps) == ps
    decreases |ps|
  {
    if |ps| > 0 {
      UnfaultedAll(ps[..|ps| - 1]);
      assert ps == ps[..|ps| - 1] + [ps[|ps| - 1]];
    }
  }

  /** The rows inserted for `qs`, with ids drawn from `n` on. */
  function NewRows(n: nat, gid: string, qs: seq<Photo>): (r: seq<Photo>)
    ensures |r| == |qs|
  {
    seq(|qs|, k requires 0 <= k < |qs| => PhotoOf(RowId(n + k), DraftOf(gid, qs[k])))
  }

  /**
   * Inserting a gallery's photos appends one row per photo whose insert does not fail, in order,
   * each with the gallery id, the photo's key, URL and size, and no user; nothing else changes.
   */
  lemma {:induction false} AddPhotosAppends(t: Tables, f: Faults, gid: string, ps: seq<Photo>)
    ensures AddPhotos(t, f, gid, ps)
      == t.(photos := t.photos + NewRows(t.nextId, gid, Unfaulted(f.photoInsert, ps)),
            nextId := t.nextId + |Unfaulted(f.photoInsert, ps)|)
    decreases |ps|
  {
    if |ps| > 0 {
      var front := ps[..|ps| - 1];
      var p := ps[|ps| - 1];
      AddPhotosAppends(t, f, gid, front);
      var uf := Unfaulted(f.photoInsert, front);
      if p.b2_file_key !in f.photoInsert {
        var row := PhotoOf(RowId(t.nextId + |uf|), DraftOf(gid, p));
        assert NewRows(t.nextId, gid, uf + [p]) == NewRows(t.nextId, gid, uf) + [row];
        assert t.photos + NewRows(t.nextId, gid, uf) + [row] == t.photos + NewRows(t.nextId, gid, uf + [p]);
      }
    }
  }

  /** Each inserted row carries the database gallery id and copies key, URL, width and height, with no user tag. */
  lemma NewRowFields(n: nat, gid: string, qs: seq<Photo>, k: nat)
    requires k < |qs|
    ensures var row := NewRows(n, gid, qs)[k];
      && row.id == RowId(n + k) && row.gallery_id == gid && row.user_tag_id == None
      && row.b2_file_key == qs[k].b2_file_key && row.public_url == qs[k].public_url
      && row.width == qs[k].width && row.height == qs[k].height
  {
  }

  // ---------------------------------------------------------------- one gallery

  /** A gallery row is created only when the lookup finds no row (or fails) and the insert succeeds. */
  lemma DbGalleryOutcome(t: Tables, f: Faults, folder: string, today: string)
    ensures var (u, gid) := DbGallery(t, f, folder, today);
      var lookup := GalleryByFolder(t, f, folder);
      && (lookup.Found? ==> u == t && gid == Ok(lookup.row.id))
      && (!lookup.Found? && folder in f.galleryInsert ==> u == t && gid == Err(f.message))
      && (!lookup.Found? && folder !in f.galleryInsert ==>
            && gid == Ok(RowId(t.nextId))
            && u == t.(galleries := t.galleries + [Gallery(RowId(t.nextId), NewGallery(folder, today).0,
                                                           NewGallery(folder, today).1, folder, None)],
                       nextId := t.nextId + 1))
  {
  }

  /** The photos the parser lists for a gallery, none when its listing fails. */
  function ListedFor(src: Source, g: GalleryFolder): seq<Photo>
  {
    match PhotosForGallery(src.folderListing(g.folderName), src.env, src.metadata)
    case Err(_) => []
    case Ok(ps) => ps
  }

  function ListedPhotos(src: Source, gs: seq<GalleryFolder>): nat
    decreases |gs|
  {
    if |gs| == 0 then 0 else ListedPhotos(src, gs[..|gs| - 1]) + |ListedFor(src, gs[|gs| - 1])|
  }

  /** A gallery never touches users, never rewrites a row, and adds at most one gallery row. */
  lemma SyncGalleryIsAdditive(t: Tables, f: Faults, src: Source, g: GalleryFolder)
    ensures var u := SyncGallery(t, f, src, g);
      && Extends(t, u) && u.users == t.users && |u.galleries| <= |t.galleries| + 1
  {
    var (u, gid) := DbGallery(t, f, g.folderName, src.today);
    DbGalleryOutcome(t, f, g.folderName, src.today);
    if gid.Ok? {
      match PhotosForGallery(src.folderListing(g.folderName), src.env, src.metadata)
      case Err(_) =>
      case Ok(ps) => AddPhotosAppends(u, f, gid.value, ps);
    }
  }

  /** Without insert failures, a gallery's run inserts every photo listed for it. */
  lemma SyncGalleryInsertsAll(t: Tables, f: Faults, src: Source, g: GalleryFolder)
    requires f.galleryInsert == {} && f.photoInsert == {}
    ensures |SyncGallery(t, f, src, g).photos| == |t.photos| + |ListedFor(src, g)|
  {
    var (u, gid) := DbGallery(t, f, g.folderName, src.today);
    DbGalleryOutcome(t, f, g.folderName, src.today);
    match PhotosForGallery(src.folderListing(g.folderName), src.env, src.metadata)
    case Err(_) =>
    case Ok(ps) =>
      AddPhotosAppends(u, f, gid.value, ps);
      UnfaultedAll(ps);
  }

  // ---------------------------------------------------------------- whole runs

  /** Writes are additive only: no row is changed or removed and no user is written. */
  lemma {:induction false} SyncGalleriesIsAdditive(t: Tables, f: Faults, src: Source, gs: seq<GalleryFolder>)
    ensures var u := SyncGalleries(t, f, src, gs);
      Extends(t, u) && u.users == t.users && |u.galleries| <= |t.galleries| + |gs|
    decreases |gs|
  {
    if |gs| > 0 {
      var front := gs[..|gs| - 1];
      SyncGalleriesIsAdditive(t, f, src, front);
      SyncGalleryIsAdditive(SyncGalleries(t, f, src, front), f, src, gs[|gs| - 1]);
    }
  }

  /** Without insert failures, a run inserts one row for every photo listed under every gallery, whatever the tables hold. */
  lemma {:induction false} SyncGalleriesInsertsAll(t: Tables, f: Faults, src: Source, gs: seq<GalleryFolder>)
    requires f.galleryInsert == {} && f.photoInsert == {}
    ensures |SyncGalleries(t, f, src, gs).photos| == |t.photos| + ListedPhotos(src, gs)
    decreases |gs|
  {
    if |gs| > 0 {
      var front := gs[..|gs| - 1];
      SyncGalleriesInsertsAll(t, f, src, front);
      SyncGalleryInsertsAll(SyncGalleries(t, f, src, front), f, src, gs[|gs| - 1]);
    }
  }

  /** A failure to list the galleries is rethrown and nothing is written. */
  lemma ListingFailureWritesNothing(t: Tables, f: Faults, src: Source)
    requires GalleriesFromB2(src.listing, src.env, src.today).Err?
    ensures SyncToDatabase(t, f, src) == (t, Some(GalleriesFromB2(src.listing, src.env, src.today).error))
  {
  }

  /**
   * The sync is not idempotent: run twice over the same listing without insert failures, the second
   * run inserts every listed photo again, so the photo table grows by the same count each time.
   */
  lemma RerunInsertsAgain(t: Tables, f: Faults, src: Source)
    requires f.galleryInsert == {} && f.photoInsert == {}
    requires GalleriesFromB2(src.listing, src.env, src.today).Ok?
    ensures var gs := GalleriesFromB2(src.listing, src.env, src.today).value;
      var n := ListedPhotos(src, gs);
      var t1 := SyncToDatabase(t, f, src).0;
      var t2 := SyncToDatabase(t1, f, src).0;
      && |t1.photos| == |t.photos| + n
      && |t2.photos| == |t1.photos| + n
      && (n > 0 ==> t2 != t1)
  {
    var gs := GalleriesFromB2(src.listing, src.env, src.today).value;
    SyncGalleriesInsertsAll(t, f, src, gs);
    SyncGalleriesInsertsAll(SyncToDatabase(t, f, src).0, f, src, gs);
  }
}
