/**
 * The database as three in-memory tables (galleries by `folder_name`, users by `handle`, photos by
 * `b2_file_key`), the outcome of a `.single()` lookup, and the inserts, updates and deletes the
 * handlers issue. A fault plan fixes which statements fail.
 */
module Db {

  import opened Wrappers
  import opened Records
  import Strings

  datatype Tables = Tables(galleries: seq<Gallery>, users: seq<User>, photos: seq<Photo>, nextId: nat)

  /**
   * Which statements fail: lookups and inserts by the value they are keyed on; whole-table selects
   * by a flag; `message` is the error text the database reports.
   */
  datatype Faults = Faults(
    galleryLookup: set<string>,
    galleryInsert: set<string>,
    userLookup: set<string>,
    userInsert: set<string>,
    photoLookup: set<string>,
    photoInsert: set<string>,
    photoUpdate: set<string>,
    photoDelete: set<string>,
    selectGalleries: bool,
    selectUsers: bool,
    selectPhotos: bool,
    message: string)

  /** The plan in which nothing fails. */
  function NoFaults(): Faults
  {
    Faults({}, {}, {}, {}, {}, {}, {}, {}, false, false, false, "")
  }

  /** The message a `.single()` query reports when it does not see exactly one row. */
  const NotOneRow := "JSON object requested, multiple (or no) rows returned"

  /**
   * The outcome of a `.single()` lookup: the one matching row, no row (which the client also reports
   * as an error), or any other error.
   */
  datatype Lookup<T> = Found(row: T) | NotFound | Failed(message: string) {
    /** The `error` field of the response: set unless exactly one row came back. */
    function Error(): Option<string>
    {
      match this
      case Found(_) => None
      case NotFound => Some(NotOneRow)
      case Failed(m) => Some(m)
    }
  }

  function FolderOf(g: Gallery): string { g.folder_name }
  function HandleOf(u: User): string { u.handle }
  function KeyOf(p: Photo): string { p.b2_file_key }
  function GalleryIdOf(p: Photo): string { p.gallery_id }

  /** The rows whose key is `k`, in table order. */
  function Matching<T>(rows: seq<T>, key: T -> string, k: string): (r: seq<T>)
    ensures |r| <= |rows|
    ensures forall i :: 0 <= i < |r| ==> key(r[i]) == k && r[i] in rows
  {
    if |rows| == 0 then []
    else Matching(rows[..|rows| - 1], key, k) + (if key(rows[|rows| - 1]) == k then [rows[|rows| - 1]] else [])
  }

  /** No row is lost: a row with key `k` is among the matches. */
  lemma {:induction false} MatchingComplete<T>(rows: seq<T>, key: T -> string, k: string, i: nat)
    requires i < |rows| && key(rows[i]) == k
    ensures rows[i] in Matching(rows, key, k)
    decreases |rows|
  {
    if i < |rows| - 1 {
      MatchingComplete(rows[..|rows| - 1], key, k, i);
    }
  }

  lemma MatchingAppend<T>(rows: seq<T>, x: T, key: T -> string, k: string)
    ensures Matching(rows + [x], key, k) == Matching(rows, key, k) + (if key(x) == k then [x] else [])
  {
    assert (rows + [x])[..|rows|] == rows;
  }

  /** Matching is empty exactly when no row carries the key. */
  lemma MatchingEmpty<T>(rows: seq<T>, key: T -> string, k: string)
    ensures |Matching(rows, key, k)| == 0 <==> forall i :: 0 <= i < |rows| ==> key(rows[i]) != k
  {
    if |Matching(rows, key, k)| == 0 {
      forall i | 0 <= i < |rows|
        ensures key(rows[i]) != k
      {
        if key(rows[i]) == k {
          MatchingComplete(rows, key, k, i);
        }
      }
    } else {
      var r := Matching(rows, key, k)[0];
      assert key(r) == k && r in rows;
      var i :| 0 <= i < |rows| && rows[i] == r;
    }
  }

  /** `.single()` over the matching rows; `fault` is the plan's verdict on this query. */
  function Single<T>(matches: seq<T>, fault: bool, message: string): (r: Lookup<T>)
    ensures r.Found? <==> !fault && |matches| == 1
    ensures r.Found? ==> r.row == matches[0]
    ensures r.NotFound? <==> !fault && |matches| == 0
  {
    if fault then Failed(message)
    else if |matches| == 1 then Found(matches[0])
    else if |matches| == 0 then NotFound
    else Failed(NotOneRow)
  }

  function GalleryByFolder(t: Tables, f: Faults, folder: string): Lookup<Gallery>
  {
    Single(Matching(t.galleries, FolderOf, folder), folder in f.galleryLookup, f.message)
  }

  function UserByHandle(t: Tables, f: Faults, handle: string): Lookup<User>
  {
    Single(Matching(t.users, HandleOf, handle), handle in f.userLookup, f.message)
  }

  function PhotoByKey(t: Tables, f: Faults, key: string): Lookup<Photo>
  {
    Single(Matching(t.photos, KeyOf, key), key in f.photoLookup, f.message)
  }

  /** Ids the database mints for new rows. */
  function RowId(n: nat): string
  {
    "row-" + Strings.NatToString(n)
  }

  lemma RowIdInjective(m: nat, n: nat)
    requires RowId(m) == RowId(n)
    ensures m == n
  {
    var p := "row-";
    assert RowId(m)[|p|..] == Strings.NatToString(m);
    assert RowId(n)[|p|..] == Strings.NatToString(n);
    Strings.DecimalRoundTrip(m);
    Strings.DecimalRoundTrip(n);
  }

  /** Insert a gallery with a null cover image; on failure the tables are unchanged. */
  function AddGallery(t: Tables, f: Faults, title: string, eventDate: string, folder: string): (r: (Tables, Result<Gallery, string>))
    ensures folder in f.galleryInsert ==> r == (t, Err(f.message))
    ensures folder !in f.galleryInsert ==>
      && r.1 == Ok(Gallery(RowId(t.nextId), title, eventDate, folder, None))
      && r.0 == t.(galleries := t.galleries + [r.1.value], nextId := t.nextId + 1)
  {
    if folder in f.galleryInsert then (t, Err(f.message))
    else
      var g := Gallery(RowId(t.nextId), title, eventDate, folder, None);
      (t.(galleries := t.galleries + [g], nextId := t.nextId + 1), Ok(g))
  }

  /** Insert a user with no instagram handle; on failure the tables are unchanged. */
  function AddUser(t: Tables, f: Faults, handle: string, displayName: string): (r: (Tables, Result<User, string>))
    ensures handle in f.userInsert ==> r == (t, Err(f.message))
    ensures handle !in f.userInsert ==>
      && r.1 == Ok(User(RowId(t.nextId), handle, displayName, None))
      && r.0 == t.(users := t.users + [r.1.value], nextId := t.nextId + 1)
  {
    if handle in f.userInsert then (t, Err(f.message))
    else
      var u := User(RowId(t.nextId), handle, displayName, None);
      (t.(users := t.users + [u], nextId := t.nextId + 1), Ok(u))
  }

  /** The columns a photo insert supplies. */
  datatype PhotoDraft = PhotoDraft(
    gallery_id: string,
    user_tag_id: Option<string>,
    b2_file_key: string,
    public_url: string,
    width: Option<int>,
    height: Option<int>)

  function PhotoOf(id: string, d: PhotoDraft): Photo
  {
    Photo(id, d.gallery_id, d.user_tag_id, d.b2_file_key, d.public_url, None, d.width, d.height)
  }

  /** Insert a photo row with no optimized URL; on failure the tables are unchanged. */
  function AddPhoto(t: Tables, f: Faults, d: PhotoDraft): (r: (Tables, Result<Photo, string>))
    ensures d.b2_file_key in f.photoInsert ==> r == (t, Err(f.message))
    ensures d.b2_file_key !in f.photoInsert ==>
      && r.1 == Ok(PhotoOf(RowId(t.nextId), d))
      && r.0 == t.(photos := t.photos + [r.1.value], nextId := t.nextId + 1)
  {
    if d.b2_file_key in f.photoInsert then (t, Err(f.message))
    else
      var p := PhotoOf(RowId(t.nextId), d);
      (t.(photos := t.photos + [p], nextId := t.nextId + 1), Ok(p))
  }

  /** Every photo whose key is `from` gets key `to` and public URL `url`; the others are untouched. */
  function Rekey(photos: seq<Photo>, from: string, to: string, url: string): (r: seq<Photo>)
    ensures |r| == |photos|
    ensures forall i :: 0 <= i < |photos| ==>
      r[i] == if photos[i].b2_file_key == from then photos[i].(b2_file_key := to, public_url := url) else photos[i]
  {
    seq(|photos|, i requires 0 <= i < |photos| =>
      if photos[i].b2_file_key == from then photos[i].(b2_file_key := to, public_url := url) else photos[i])
  }

  /** `update ... eq('b2_file_key', from)`: when it fails, the table is unchanged. */
  function UpdatePhotoKey(t: Tables, f: Faults, from: string, to: string, url: string): (r: (Tables, Option<string>))
    ensures from in f.photoUpdate ==> r == (t, Some(f.message))
    ensures from !in f.photoUpdate ==> r == (t.(photos := Rekey(t.photos, from, to, url)), None)
  {
    if from in f.photoUpdate then (t, Some(f.message))
    else (t.(photos := Rekey(t.photos, from, to, url)), None)
  }

  /** The photos whose key is not `key`, in table order. */
  function Without(photos: seq<Photo>, key: string): (r: seq<Photo>)
    ensures |r| <= |photos|
    ensures forall i :: 0 <= i < |r| ==> r[i].b2_file_key != key && r[i] in photos
    ensures forall i :: 0 <= i < |photos| && photos[i].b2_file_key != key ==> photos[i] in r
  {
    if |photos| == 0 then []
    else (if photos[0].b2_file_key == key then [] else [photos[0]]) + Without(photos[1..], key)
  }

  /** `delete ... eq('b2_file_key', key)`: when it fails, the table is unchanged. */
  function DeletePhotoKey(t: Tables, f: Faults, key: string): (r: (Tables, Option<string>))
    ensures key in f.photoDelete ==> r == (t, Some(f.message))
    ensures key !in f.photoDelete ==> r == (t.(photos := Without(t.photos, key)), None)
  {
    if key in f.photoDelete then (t, Some(f.message))
    else (t.(photos := Without(t.photos, key)), None)
  }

  // ---------------------------------------------------------------- minted ids

  /** No row of any table carries an id the database has not minted yet. */
  ghost predicate IdsBelow(t: Tables)
  {
    && (forall i, n: nat :: 0 <= i < |t.galleries| && t.nextId <= n ==> t.galleries[i].id != RowId(n))
    && (forall i, n: nat :: 0 <= i < |t.users| && t.nextId <= n ==> t.users[i].id != RowId(n))
    && (forall i, n: nat :: 0 <= i < |t.photos| && t.nextId <= n ==> t.photos[i].id != RowId(n))
  }

  /** No row of any table carries `id`. */
  ghost predicate NotAnId(t: Tables, id: string)
  {
    && (forall i :: 0 <= i < |t.galleries| ==> t.galleries[i].id != id)
    && (forall i :: 0 <= i < |t.users| ==> t.users[i].id != id)
    && (forall i :: 0 <= i < |t.photos| ==> t.photos[i].id != id)
  }

  /** The id about to be minted is no row's id, and the ids above it stay unused once it is taken. */
  lemma MintIsFresh(t: Tables)
    requires IdsBelow(t)
    ensures NotAnId(t, RowId(t.nextId))
    ensures forall n: nat :: t.nextId + 1 <= n ==> RowId(t.nextId) != RowId(n)
  {
    forall n: nat | t.nextId + 1 <= n
      ensures RowId(t.nextId) != RowId(n)
    {
      if RowId(t.nextId) == RowId(n) {
        RowIdInjective(t.nextId, n);
      }
    }
  }

  /** A gallery insert gives its row an id no row had, and keeps every unminted id unused. */
  lemma AddGalleryFresh(t: Tables, f: Faults, title: string, eventDate: string, folder: string)
    requires IdsBelow(t)
    ensures IdsBelow(AddGallery(t, f, title, eventDate, folder).0)
    ensures AddGallery(t, f, title, eventDate, folder).1.Ok? ==> NotAnId(t, AddGallery(t, f, title, eventDate, folder).1.value.id)
  {
    MintIsFresh(t);
  }

  /** A user insert gives its row an id no row had, and keeps every unminted id unused. */
  lemma AddUserFresh(t: Tables, f: Faults, handle: string, displayName: string)
    requires IdsBelow(t)
    ensures IdsBelow(AddUser(t, f, handle, displayName).0)
    ensures AddUser(t, f, handle, displayName).1.Ok? ==> NotAnId(t, AddUser(t, f, handle, displayName).1.value.id)
  {
    MintIsFresh(t);
  }

  /** A photo insert gives its row an id no row had, and keeps every unminted id unused. */
  lemma AddPhotoFresh(t: Tables, f: Faults, d: PhotoDraft)
    requires IdsBelow(t)
    ensures IdsBelow(AddPhoto(t, f, d).0)
    ensures AddPhoto(t, f, d).1.Ok? ==> NotAnId(t, AddPhoto(t, f, d).1.value.id)
  {
    MintIsFresh(t);
  }

  /** Updating and deleting photo rows never brings in an unminted id. */
  lemma UpdateAndDeleteKeepIdsBelow(t: Tables, f: Faults, from: string, to: string, url: string)
    requires IdsBelow(t)
    ensures IdsBelow(UpdatePhotoKey(t, f, from, to, url).0)
    ensures IdsBelow(DeletePhotoKey(t, f, from).0)
  {
    var w := Without(t.photos, from);
    forall i, n: nat | 0 <= i < |w| && t.nextId <= n
      ensures w[i].id != RowId(n)
    {
      var j :| 0 <= j < |t.photos| && t.photos[j] == w[i];
    }
  }

  /** `select('*').eq('gallery_id', id)`. */
  function PhotosOfGallery(t: Tables, f: Faults, galleryId: string): (r: Result<seq<Photo>, string>)
    ensures r.Err? <==> f.selectPhotos
    ensures r.Ok? ==> r.value == Matching(t.photos, GalleryIdOf, galleryId)
  {
    if f.selectPhotos then Err(f.message) else Ok(Matching(t.photos, GalleryIdOf, galleryId))
  }

  /** `u` keeps every row of `t`, in place, and may add rows after them: writes were additive only. */
  predicate Extends(t: Tables, u: Tables)
  {
    t.galleries <= u.galleries && t.users <= u.users && t.photos <= u.photos && t.nextId <= u.nextId
  }

  /** The tables as one mutable database; every statement is a method tied to the function above it. */
  class Database {
    var galleries: seq<Gallery>
    var users: seq<User>
    var photos: seq<Photo>
    var nextId: nat
    const faults: Faults

    function Snapshot(): Tables
      reads this
    {
      Tables(galleries, users, photos, nextId)
    }

    constructor (t: Tables, f: Faults)
      ensures Snapshot() == t && faults == f
    {
      galleries, users, photos, nextId := t.galleries, t.users, t.photos, t.nextId;
      faults := f;
    }

    method Restore(t: Tables)
      modifies this
      ensures Snapshot() == t
    {
      galleries, users, photos, nextId := t.galleries, t.users, t.photos, t.nextId;
    }

    method FindGallery(folder: string) returns (r: Lookup<Gallery>)
      ensures r == GalleryByFolder(Snapshot(), faults, folder)
    {
      r := GalleryByFolder(Snapshot(), faults, folder);
    }

    method FindUser(handle: string) returns (r: Lookup<User>)
      ensures r == UserByHandle(Snapshot(), faults, handle)
    {
      r := UserByHandle(Snapshot(), faults, handle);
    }

    method FindPhoto(key: string) returns (r: Lookup<Photo>)
      ensures r == PhotoByKey(Snapshot(), faults, key)
    {
      r := PhotoByKey(Snapshot(), faults, key);
    }

    method InsertGallery(title: string, eventDate: string, folder: string) returns (r: Result<Gallery, string>)
      modifies this
      ensures (Snapshot(), r) == AddGallery(old(Snapshot()), faults, title, eventDate, folder)
    {
      var res := AddGallery(Snapshot(), faults, title, eventDate, folder);
      Restore(res.0);
      r := res.1;
    }

    method InsertUser(handle: string, displayName: string) returns (r: Result<User, string>)
      modifies this
      ensures (Snapshot(), r) == AddUser(old(Snapshot()), faults, handle, displayName)
    {
      var res := AddUser(Snapshot(), faults, handle, displayName);
      Restore(res.0);
      r := res.1;
    }

    method InsertPhoto(d: PhotoDraft) returns (r: Result<Photo, string>)
      modifies this
      ensures (Snapshot(), r) == AddPhoto(old(Snapshot()), faults, d)
    {
      var res := AddPhoto(Snapshot(), faults, d);
      Restore(res.0);
      r := res.1;
    }

    method UpdatePhotos(from: string, to: string, url: string) returns (err: Option<string>)
      modifies this
      ensures (Snapshot(), err) == UpdatePhotoKey(old(Snapshot()), faults, from, to, url)
    {
      var res := UpdatePhotoKey(Snapshot(), faults, from, to, url);
      Restore(res.0);
      err := res.1;
    }

    method DeletePhotos(key: string) returns (err: Option<string>)
      modifies this
      ensures (Snapshot(), err) == DeletePhotoKey(old(Snapshot()), faults, key)
    {
      var res := DeletePhotoKey(Snapshot(), faults, key);
      Restore(res.0);
      err := res.1;
    }
  }
}
