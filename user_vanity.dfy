/**
 * The per-user gallery page: it loads the user's galleries, makes the first one active, keeps a
 * cache of each gallery's photos filtered down to those tagged to the user, and downloads one photo
 * or a whole gallery as a zip whose entries are named after the photos' files.
 */
module UserVanity {

  import opened Wrappers
  import opened Strings
  import opened Records

  // ---------------------------------------------------------------- which photos are the user's

  /**
   * A photo belongs to the user when it is tagged with the user's id, or when its key is non-empty
   * and passes through a folder named after the user.
   */
  predicate Tagged(p: Photo, userId: string)
  {
    p.user_tag_id == Some(userId) || (p.b2_file_key != "" && Contains(p.b2_file_key, "/" + userId + "/"))
  }

  /** `photos.filter(...)` with the tagging rule. */
  function UserPhotos(photos: seq<Photo>, userId: string): seq<Photo>
    decreases |photos|
  {
    if |photos| == 0 then []
    else
      var p := photos[|photos| - 1];
      UserPhotos(photos[..|photos| - 1], userId) + (if Tagged(p, userId) then [p] else [])
  }

  /** A photo is kept exactly when it is one of the gallery's and belongs to the user. */
  lemma {:induction false} UserPhotosKeepsTagged(photos: seq<Photo>, userId: string)
    ensures forall p :: p in UserPhotos(photos, userId) <==> p in photos && Tagged(p, userId)
    ensures |UserPhotos(photos, userId)| <= |photos|
    decreases |photos|
  {
    if |photos| > 0 {
      var front := photos[..|photos| - 1];
      UserPhotosKeepsTagged(front, userId);
      assert photos == front + [photos[|photos| - 1]];
    }
  }

  /** The filter works piece by piece, so the kept photos stay in the gallery's order. */
  lemma {:induction false} UserPhotosSplits(a: seq<Photo>, b: seq<Photo>, userId: string)
    ensures UserPhotos(a + b, userId) == UserPhotos(a, userId) + UserPhotos(b, userId)
    decreases |b|
  {
    if |b| == 0 {
      assert a + b == a;
    } else {
      assert (a + b)[..|a + b| - 1] == a + b[..|b| - 1];
      UserPhotosSplits(a, b[..|b| - 1], userId);
    }
  }

  /** A key with a folder named after the user anywhere in its path is the user's, tag or no tag. */
  lemma KeyUnderUserFolderIsKept(p: Photo, userId: string, before: string, after: string)
    requires p.b2_file_key == before + "/" + userId + "/" + after
    ensures Tagged(p, userId)
  {
    var t := "/" + userId + "/";
    var k := p.b2_file_key;
    assert k == before + t + after;
    assert k[|before|..|before| + |t|] == t;
    assert OccursAt(k, t, |before|);
  }

  // ---------------------------------------------------------------- download names

  /** `s.split('/').pop() || 'photo.jpg'`. */
  function FileNameOf(s: string): string
  {
    var n := LastSegment(s, '/');
    if n != "" then n else "photo.jpg"
  }

  /** The name is the text after the last '/', or "photo.jpg" when that text is empty; it never holds a '/'. */
  lemma FileNameRule(s: string)
    ensures var tail := s[LastIndexOf(s, '/') + 1..];
      && (tail != "" ==> FileNameOf(s) == tail)
      && (tail == "" ==> FileNameOf(s) == "photo.jpg")
    ensures FileNameOf(s) != "" && '/' !in FileNameOf(s)
  {
    LastSegmentIsSuffix(s, '/');
    assert "photo.jpg" == ['p', 'h', 'o', 't', 'o', '.', 'j', 'p', 'g'];
  }

  /** A single photo is saved under the last segment of its id. */
  function DownloadName(p: Photo): string
  {
    FileNameOf(p.id)
  }

  /** A zip entry is named after the last segment of the photo's object key. */
  function ZipEntryName(p: Photo): string
  {
    FileNameOf(p.b2_file_key)
  }

  /** `${title.replace(/\s+/g, '_')}_gallery.zip`. */
  function ZipName(title: string): string
  {
    ReplaceSpaceRuns(title, "_") + "_gallery.zip"
  }

  /** The zip's name holds no white space and ends in "_gallery.zip"; a title without white space is kept as it is. */
  lemma ZipNameRule(title: string)
    ensures forall i :: 0 <= i < |ZipName(title)| ==> !IsSpace(ZipName(title)[i])
    ensures |ZipName(title)| >= 12 && ZipName(title)[|ZipName(title)| - 12..] == "_gallery.zip"
    ensures (forall i :: 0 <= i < |title| ==> !IsSpace(title[i])) ==> ZipName(title) == title + "_gallery.zip"
  {
    var rep := "_";
    assert !IsSpace(rep[0]);
    ReplaceSpaceRunsRemovesSpace(title, rep);
    var r := ReplaceSpaceRuns(title, rep);
    var tail := "_gallery.zip";
    assert tail == ['_', 'g', 'a', 'l', 'l', 'e', 'r', 'y', '.', 'z', 'i', 'p'];
    forall i | 0 <= i < |tail| ensures !IsSpace(tail[i]) {
    }
    assert ZipName(title) == r + tail;
    forall i | 0 <= i < |r + tail| ensures !IsSpace((r + tail)[i]) {
      if i >= |r| {
        assert (r + tail)[i] == tail[i - |r|];
      }
    }
    assert (r + tail)[|r + tail| - 12..] == tail;
    if forall i :: 0 <= i < |title| ==> !IsSpace(title[i]) {
      ReplaceSpaceRunsSpaceFree(title, rep);
    }
  }

  // ---------------------------------------------------------------- the zip

  /** A zip: its file name, and each entry's content by entry name (the body fetched from the photo's URL, named by that URL). */
  datatype Zip = Zip(name: string, entries: map<string, string>)

  /** The entries after `zip.file(name, blob)` for every photo in order; a repeated name overwrites the earlier entry. */
  function ZipEntries(photos: seq<Photo>): map<string, string>
    decreases |photos|
  {
    if |photos| == 0 then map[]
    else
      var p := photos[|photos| - 1];
      ZipEntries(photos[..|photos| - 1])[ZipEntryName(p) := p.public_url]
  }

  /** The entry names are exactly the photos' file names. */
  lemma {:induction false} ZipEntriesNames(photos: seq<Photo>, n: string)
    ensures n in ZipEntries(photos) <==> exists i :: 0 <= i < |photos| && ZipEntryName(photos[i]) == n
    decreases |photos|
  {
    if |photos| > 0 {
      var front := photos[..|photos| - 1];
      ZipEntriesNames(front, n);
      assert forall i :: 0 <= i < |front| ==> front[i] == photos[i];
      if n in ZipEntries(front) {
        var i :| 0 <= i < |front| && ZipEntryName(front[i]) == n;
        assert ZipEntryName(photos[i]) == n;
      }
    }
  }

  /** Of the photos sharing a file name, the zip holds the last one's content. */
  lemma {:induction false} ZipEntriesLastWins(photos: seq<Photo>, j: nat)
    requires j < |photos|
    requires forall k :: j < k < |photos| ==> ZipEntryName(photos[k]) != ZipEntryName(photos[j])
    ensures ZipEntryName(photos[j]) in ZipEntries(photos)
    ensures ZipEntries(photos)[ZipEntryName(photos[j])] == photos[j].public_url
    decreases |photos|
  {
    if j < |photos| - 1 {
      var front := photos[..|photos| - 1];
      assert front[j] == photos[j];
      ZipEntriesLastWins(front, j);
    }
  }

  /**
   * What a gallery download yields: nothing when the cached list is missing or empty, nothing when
   * a photo's fetch throws, and otherwise the zip of every cached photo.
   */
  function GalleryZip(cache: map<string, seq<Photo>>, galleryId: string, title: string, failing: set<string>): Option<Zip>
  {
    var photos := CachedList(cache, galleryId);
    if |photos| == 0 || AnyFails(photos, failing) then None
    else Some(Zip(ZipName(title), ZipEntries(photos)))
  }

  /** `userGalleriesPhotos[galleryId] || []`. */
  function CachedList(cache: map<string, seq<Photo>>, galleryId: string): seq<Photo>
  {
    if galleryId in cache then cache[galleryId] else []
  }

  /** Some photo's fetch throws. */
  predicate AnyFails(photos: seq<Photo>, failing: set<string>)
  {
    exists i :: 0 <= i < |photos| && photos[i].public_url in failing
  }

  /** A zip is produced exactly when the gallery has cached photos and none of their fetches fails; it has an entry per file name. */
  lemma GalleryZipRule(cache: map<string, seq<Photo>>, galleryId: string, title: string, failing: set<string>)
    ensures GalleryZip(cache, galleryId, title, failing).Some? <==>
      && galleryId in cache && |cache[galleryId]| > 0
      && forall i :: 0 <= i < |cache[galleryId]| ==> cache[galleryId][i].public_url !in failing
    ensures GalleryZip(cache, galleryId, title, failing).Some? ==>
      && GalleryZip(cache, galleryId, title, failing).value.name == ZipName(title)
      && forall n :: n in GalleryZip(cache, galleryId, title, failing).value.entries <==>
           exists i :: 0 <= i < |cache[galleryId]| && ZipEntryName(cache[galleryId][i]) == n
  {
    if galleryId in cache {
      var photos := cache[galleryId];
      assert CachedList(cache, galleryId) == photos;
      if GalleryZip(cache, galleryId, title, failing).Some? {
        forall n ensures n in ZipEntries(photos) <==> exists i :: 0 <= i < |photos| && ZipEntryName(photos[i]) == n
        {
          ZipEntriesNames(photos, n);
        }
      } else if |photos| > 0 {
        var i :| 0 <= i < |photos| && photos[i].public_url in failing;
      }
    }
  }

  // ---------------------------------------------------------------- the cache

  /** `galleries.find(g => g.id === id)`. */
  function FindGallery(galleries: seq<Gallery>, id: Option<string>): (r: Option<Gallery>)
    ensures r.Some? ==> exists i :: 0 <= i < |galleries| && galleries[i] == r.value && Some(r.value.id) == id &&
                          forall k :: 0 <= k < i ==> Some(galleries[k].id) != id
    ensures r.None? <==> forall k :: 0 <= k < |galleries| ==> Some(galleries[k].id) != id
    decreases |galleries|
  {
    if |galleries| == 0 then None
    else if Some(galleries[0].id) == id then Some(galleries[0])
    else
      var r := FindGallery(galleries[1..], id);
      assert forall k :: 0 < k < |galleries| ==> galleries[k] == galleries[1..][k - 1];
      r
  }

  /**
   * The cache after the photo fetch for the active gallery: nothing happens without an active
   * gallery or when its list is already cached, even as an empty list, or when the reply carries no
   * list; otherwise the user's photos of the gallery are stored under it.
   */
  function Cached(cache: map<string, seq<Photo>>, active: Option<string>, reply: Option<seq<Photo>>, userId: string): map<string, seq<Photo>>
  {
    if active.None? || active.value == "" || active.value in cache || reply.None? then cache
    else cache[active.value := UserPhotos(reply.value, userId)]
  }

  /** A gallery's photos are fetched at most once: a second fetch for it leaves the cache as the first left it. */
  lemma CachedOnce(cache: map<string, seq<Photo>>, active: Option<string>, r1: Option<seq<Photo>>, r2: Option<seq<Photo>>, userId: string)
    requires r1.Some?
    ensures Cached(Cached(cache, active, r1, userId), active, r2, userId) == Cached(cache, active, r1, userId)
  {
  }

  /** Every cached photo belongs to the user, and no other gallery's list changes. */
  lemma CachedHoldsOnlyTagged(cache: map<string, seq<Photo>>, active: Option<string>, reply: Option<seq<Photo>>, userId: string)
    requires forall g, p :: g in cache && p in cache[g] ==> Tagged(p, userId)
    ensures forall g, p :: g in Cached(cache, active, reply, userId) && p in Cached(cache, active, reply, userId)[g] ==> Tagged(p, userId)
    ensures forall g :: g in cache ==> g in Cached(cache, active, reply, userId) && Cached(cache, active, reply, userId)[g] == cache[g]
  {
    if active.Some? && reply.Some? {
      UserPhotosKeepsTagged(reply.value, userId);
    }
  }

  // ---------------------------------------------------------------- the page

  /** How the galleries request ended: a body whose `galleries` is an array or not, or a throw with its message. */
  datatype GalleriesOutcome = GalleriesReplied(galleries: Option<seq<Gallery>>) | GalleriesThrew(message: string)

  /** A download the browser was asked to save. */
  datatype Saved = SavedPhoto(url: string, name: string) | SavedZip(zip: Zip)

  class Vanity {
    const userId: string
    var userHandle: Option<string>
    var galleries: seq<Gallery>
    var selected: Option<Photo>
    var loading: bool
    var error: Option<string>
    var activeGallery: Option<string>
    /** `userGalleriesPhotos`: the user's photos by gallery id. */
    var cache: map<string, seq<Photo>>
    var downloading: map<string, bool>
    /** Every download started through a link, oldest first. */
    var saved: seq<Saved>

    constructor (userId: string)
      ensures this.userId == userId && userHandle == None && galleries == [] && selected == None
      ensures loading && error == None && activeGallery == None && cache == map[] && downloading == map[] && saved == []
      ensures Valid()
    {
      this.userId := userId;
      userHandle, galleries, selected := None, [], None;
      loading, error, activeGallery := true, None, None;
      cache, downloading, saved := map[], map[], [];
    }

    /** Every cached photo belongs to the user, and nothing is cached under the empty id. */
    predicate Valid()
      reads this
    {
      && "" !in cache
      && forall g, p :: g in cache && p in cache[g] ==> Tagged(p, userId)
    }

    /**
     * The galleries request ended: an array replaces the galleries and makes the first one active,
     * a body without one is an error, a throw is an error naming the user; loading is over either way.
     */
    method GalleriesFetched(outcome: GalleriesOutcome)
      modifies this
      ensures userHandle == Some(userId) && !loading
      ensures cache == old(cache) && downloading == old(downloading) && selected == old(selected) && saved == old(saved)
      ensures outcome.GalleriesReplied? && outcome.galleries.Some? ==>
        && galleries == outcome.galleries.value && error == old(error)
        && activeGallery == (if |galleries| > 0 then Some(galleries[0].id) else old(activeGallery))
      ensures outcome.GalleriesReplied? && outcome.galleries.None? ==>
        galleries == old(galleries) && activeGallery == old(activeGallery) && error == Some("No galleries found for this user")
      ensures outcome.GalleriesThrew? ==>
        && galleries == old(galleries) && activeGallery == old(activeGallery)
        && error == Some("Failed to load galleries for user " + userId + ": " + outcome.message)
    {
      userHandle := Some(userId);
      match outcome {
        case GalleriesReplied(gs) =>
          if gs.Some? {
            galleries := gs.value;
            if |gs.value| > 0 {
              activeGallery := Some(gs.value[0].id);
            }
          } else {
            error := Some("No galleries found for this user");
          }
        case GalleriesThrew(m) =>
          error := Some("Failed to load galleries for user " + userId + ": " + m);
      }
      loading := false;
    }

    /** A gallery button: it becomes the active one. */
    method Select(galleryId: string)
      modifies this
      ensures activeGallery == Some(galleryId)
      ensures galleries == old(galleries) && cache == old(cache) && error == old(error) && loading == old(loading)
      ensures downloading == old(downloading) && selected == old(selected) && saved == old(saved) && userHandle == old(userHandle)
    {
      activeGallery := Some(galleryId);
    }

    /**
     * The photo fetch for the active gallery; `reply` is the gallery's `photos` array, or `None` when
     * the body has none or a request throws. `fetched` says whether the requests were made at all.
     */
    method PhotosFetched(reply: Option<seq<Photo>>) returns (fetched: bool)
      modifies this
      ensures fetched <==> old(activeGallery).Some? && old(activeGallery).value != "" && old(activeGallery).value !in old(cache)
      ensures cache == Cached(old(cache), old(activeGallery), reply, userId)
      ensures galleries == old(galleries) && activeGallery == old(activeGallery) && error == old(error) && loading == old(loading)
      ensures downloading == old(downloading) && selected == old(selected) && saved == old(saved) && userHandle == old(userHandle)
      ensures old(Valid()) ==> Valid()
    {
      if Valid() {
        CachedHoldsOnlyTagged(cache, activeGallery, reply, userId);
      }
      if activeGallery.None? || activeGallery.value == "" || activeGallery.value in cache {
        return false;
      }
      fetched := true;
      if reply.Some? {
        cache := cache[activeGallery.value := UserPhotos(reply.value, userId)];
      }
    }

    /** The photos shown: the active gallery's cached list, or none. */
    function ActivePhotos(): (r: seq<Photo>)
      reads this
      ensures Valid() ==> forall p :: p in r ==> Tagged(p, userId)
      ensures Valid() && r != [] ==> activeGallery.Some? && activeGallery.value in cache
    {
      var k := activeGallery.GetOr("");
      if k in cache then cache[k] else []
    }

    /** The header and download button belong to the first gallery whose id is the active one. */
    function ActiveGallery(): Option<Gallery>
      reads this
    {
      FindGallery(galleries, activeGallery)
    }

    /** Clicking a photo opens the modal on it. */
    method Click(p: Photo)
      modifies this
      ensures selected == Some(p)
      ensures galleries == old(galleries) && cache == old(cache) && error == old(error) && loading == old(loading)
      ensures downloading == old(downloading) && activeGallery == old(activeGallery) && saved == old(saved) && userHandle == old(userHandle)
    {
      selected := Some(p);
    }

    /** Closing the modal clears the selection. */
    method Close()
      modifies this
      ensures selected == None
      ensures galleries == old(galleries) && cache == old(cache) && error == old(error) && loading == old(loading)
      ensures downloading == old(downloading) && activeGallery == old(activeGallery) && saved == old(saved) && userHandle == old(userHandle)
    {
      selected := None;
    }

    /** `handleDownload`: a link to the photo's public URL, saved under the last segment of its id. */
    method Download(p: Photo)
      modifies this
      ensures saved == old(saved) + [SavedPhoto(p.public_url, DownloadName(p))]
      ensures galleries == old(galleries) && cache == old(cache) && error == old(error) && loading == old(loading)
      ensures downloading == old(downloading) && activeGallery == old(activeGallery) && selected == old(selected) && userHandle == old(userHandle)
    {
      saved := saved + [SavedPhoto(p.public_url, DownloadName(p))];
    }

    /**
     * `handleDownloadGallery`: `failing` holds the URLs whose fetch throws. The zip is built photo by
     * photo; an empty list or the first failing fetch ends it without a download, and the gallery's
     * downloading flag is off again whichever way it ends.
     */
    method DownloadGallery(galleryId: string, title: string, failing: set<string>) returns (zip: Option<Zip>)
      modifies this
      ensures zip == GalleryZip(old(cache), galleryId, title, failing)
      ensures saved == old(saved) + (if zip.Some? then [SavedZip(zip.value)] else [])
      ensures downloading == old(downloading)[galleryId := false]
      ensures galleries == old(galleries) && cache == old(cache) && error == old(error) && loading == old(loading)
      ensures activeGallery == old(activeGallery) && selected == old(selected) && userHandle == old(userHandle)
    {
      downloading := downloading[galleryId := true];
      var photos := CachedList(cache, galleryId);
      if |photos| == 0 {
        downloading := downloading[galleryId := false];
        return None;
      }
      var entries: map<string, string> := map[];
      var i := 0;
      while i < |photos|
        invariant 0 <= i <= |photos|
        invariant entries == ZipEntries(photos[..i])
        invariant forall j :: 0 <= j < i ==> photos[j].public_url !in failing
      {
        if photos[i].public_url in failing {
          assert AnyFails(photos, failing);
          downloading := downloading[galleryId := false];
          return None;
        }
        assert photos[..i + 1][..i] == photos[..i];
        entries := entries[ZipEntryName(photos[i]) := photos[i].public_url];
        i := i + 1;
      }
      assert photos[..i] == photos;
      zip := Some(Zip(ZipName(title), entries));
      saved := saved + [SavedZip(zip.value)];
      downloading := downloading[galleryId := false];
    }
  }
}
