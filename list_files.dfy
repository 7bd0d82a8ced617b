/**
 * The admin file listing: every listed object becomes one entry, joined to a photo row by the last
 * '/' segment of the key. The rows arrive newest first and are written into the mapping one after
 * another, so among rows that share a basename the last one written, the oldest, is the one kept.
 */
module ListFiles {

  import opened Wrappers
  import opened Strings
  import opened Records
  import B2

  /** What the mapping keeps of a photo row. */
  datatype Info = Info(b2Path: string, publicUrl: string, width: Option<int>, height: Option<int>)

  /** One entry of the response; `originalInfo` is `None` where the response carries `{}`. */
  datatype Entry = Entry(
    fileName: string,
    b2Path: Option<string>,
    publicUrl: string,
    size: Option<nat>,
    uploadTimestamp: Option<nat>,
    originalInfo: Option<Info>)

  datatype Response = Response(status: nat, success: bool, message: Option<string>, files: Option<seq<Entry>>)

  const PasswordMissing := "Admin password not configured"
  const PhotosFailed := "Error fetching photos from database"
  const ListingFailed := "An error occurred while listing files"

  // ---------------------------------------------------------------- the mapping

  /** `b2_file_key.split('/').pop() || ''`: the text after the last '/'. */
  function Basename(p: Photo): string
  {
    LastSegment(p.b2_file_key, '/')
  }

  function InfoOf(p: Photo): Info
  {
    Info(p.b2_file_key, p.public_url, p.width, p.height)
  }

  /** The mapping after the `forEach` has written every row, in order, each overwriting its basename. */
  function Mapping(rows: seq<Photo>): map<string, Info>
    decreases |rows|
  {
    if |rows| == 0 then map[]
    else
      var p := rows[|rows| - 1];
      Mapping(rows[..|rows| - 1])[Basename(p) := InfoOf(p)]
  }

  /** The `forEach` over the rows. */
  method BuildMapping(rows: seq<Photo>) returns (m: map<string, Info>)
    ensures m == Mapping(rows)
  {
    m := map[];
    var i := 0;
    while i < |rows|
      invariant 0 <= i <= |rows|
      invariant m == Mapping(rows[..i])
    {
      assert rows[..i + 1][..i] == rows[..i];
      m := m[Basename(rows[i]) := InfoOf(rows[i])];
      i := i + 1;
    }
    assert rows[..i] == rows;
  }

  /** The basenames in the mapping are exactly those of the rows. */
  lemma {:induction false} MappingKeys(rows: seq<Photo>, b: string)
    ensures b in Mapping(rows) <==> exists i :: 0 <= i < |rows| && Basename(rows[i]) == b
    decreases |rows|
  {
    if |rows| > 0 {
      var front := rows[..|rows| - 1];
      MappingKeys(front, b);
      assert forall i :: 0 <= i < |front| ==> front[i] == rows[i];
      if b in Mapping(front) {
        var i :| 0 <= i < |front| && Basename(front[i]) == b;
        assert Basename(rows[i]) == b;
      }
    }
  }

  /** A basename maps to the last row that has it: every later row has another basename. */
  lemma {:induction false} MappingLastWins(rows: seq<Photo>, j: nat)
    requires j < |rows|
    requires forall k :: j < k < |rows| ==> Basename(rows[k]) != Basename(rows[j])
    ensures Basename(rows[j]) in Mapping(rows) && Mapping(rows)[Basename(rows[j])] == InfoOf(rows[j])
    decreases |rows|
  {
    if j < |rows| - 1 {
      var front := rows[..|rows| - 1];
      assert front[j] == rows[j];
      MappingLastWins(front, j);
    }
  }

  /**
   * With the rows in descending `created_at` order (`createdAt[i]` being row i's), a basename shared
   * by several rows maps to the one created first: its creation time is at most any of theirs.
   */
  lemma OldestRowWins(rows: seq<Photo>, createdAt: seq<int>, b: string)
    requires |createdAt| == |rows|
    requires forall i, j :: 0 <= i < j < |rows| ==> createdAt[i] >= createdAt[j]
    requires exists i :: 0 <= i < |rows| && Basename(rows[i]) == b
    ensures b in Mapping(rows)
    ensures exists j :: 0 <= j < |rows| && Basename(rows[j]) == b && Mapping(rows)[b] == InfoOf(rows[j])
                        && forall i :: 0 <= i < |rows| && Basename(rows[i]) == b ==> createdAt[j] <= createdAt[i]
  {
    var j := LastWith(rows, b);
    MappingLastWins(rows, j);
    forall i | 0 <= i < |rows| && Basename(rows[i]) == b
      ensures createdAt[j] <= createdAt[i]
    {
      if i < j {
        assert createdAt[i] >= createdAt[j];
      }
    }
    assert Basename(rows[j]) == b && Mapping(rows)[b] == InfoOf(rows[j]);
  }

  /** The last index of a row with basename `b`. */
  function LastWith(rows: seq<Photo>, b: string): (j: nat)
    requires exists i :: 0 <= i < |rows| && Basename(rows[i]) == b
    ensures j < |rows| && Basename(rows[j]) == b
    ensures forall k :: j < k < |rows| ==> Basename(rows[k]) != b
    decreases |rows|
  {
    if Basename(rows[|rows| - 1]) == b then |rows| - 1
    else
      var front := rows[..|rows| - 1];
      assert exists i :: 0 <= i < |front| && Basename(front[i]) == b by {
        var i :| 0 <= i < |rows| && Basename(rows[i]) == b;
        assert i < |front| && front[i] == rows[i];
      }
      var j := LastWith(front, b);
      assert rows[j] == front[j];
      j
  }

  // ---------------------------------------------------------------- the entries

  /** `obj.Key?.split('/').pop() || obj.Key || ''`. */
  function FileName(key: Option<string>): string
  {
    match key
    case None => ""
    case Some(k) => if LastSegment(k, '/') != "" then LastSegment(k, '/') else k
  }

  /** The file name is the text after the key's last '/'; a key ending in '/' is used whole, and a missing key gives "". */
  lemma FileNameFallback(key: Option<string>)
    ensures key.None? ==> FileName(key) == ""
    ensures key.Some? && (key.value == "" || key.value[|key.value| - 1] != '/') ==>
              FileName(key) == key.value[LastIndexOf(key.value, '/') + 1..]
    ensures key.Some? && key.value != "" && key.value[|key.value| - 1] == '/' ==> FileName(key) == key.value
    ensures key.Some? && '/' !in key.value ==> FileName(key) == key.value
  {
    if key.Some? {
      var k := key.value;
      LastSegmentIsSuffix(k, '/');
      if '/' !in k {
        SplitOfSeparatorFree(k, '/');
      }
    }
  }

  function EntryOf(mapping: map<string, Info>, o: ListedObject): Entry
  {
    var name := FileName(o.key);
    var info := if name in mapping then Some(mapping[name]) else None;
    Entry(name, o.key, if info.Some? then info.value.publicUrl else "", o.size, o.lastModified, info)
  }

  /** `objects.map(...)`. */
  function Entries(mapping: map<string, Info>, objects: seq<ListedObject>): (r: seq<Entry>)
    decreases |objects|
  {
    if |objects| == 0 then [] else [EntryOf(mapping, objects[0])] + Entries(mapping, objects[1..])
  }

  /** One entry per listed object, in listing order, each carrying that object's key, size and timestamp. */
  lemma {:induction false} EntriesFollowListing(mapping: map<string, Info>, objects: seq<ListedObject>)
    ensures |Entries(mapping, objects)| == |objects|
    ensures forall i :: 0 <= i < |objects| ==>
      var e := Entries(mapping, objects)[i];
      && e == EntryOf(mapping, objects[i])
      && e.b2Path == objects[i].key && e.size == objects[i].size && e.uploadTimestamp == objects[i].lastModified
    decreases |objects|
  {
    if |objects| > 0 {
      EntriesFollowListing(mapping, objects[1..]);
      forall i | 0 < i < |objects|
        ensures Entries(mapping, objects)[i] == EntryOf(mapping, objects[i])
      {
        assert Entries(mapping, objects)[i] == Entries(mapping, objects[1..])[i - 1];
        assert objects[1..][i - 1] == objects[i];
      }
    }
  }

  /**
   * An entry is matched exactly when some row has its file name as basename; a matched entry carries
   * the kept row's URL, an unmatched one the empty URL and no info.
   */
  lemma EntryMatch(rows: seq<Photo>, o: ListedObject)
    ensures var e := EntryOf(Mapping(rows), o);
      && (e.originalInfo.Some? <==> exists i :: 0 <= i < |rows| && Basename(rows[i]) == FileName(o.key))
      && (e.originalInfo.None? ==> e.publicUrl == "")
      && (e.originalInfo.Some? ==>
            && e.publicUrl == e.originalInfo.value.publicUrl
            && exists j :: 0 <= j < |rows| && e.originalInfo.value == InfoOf(rows[j]) && Basename(rows[j]) == FileName(o.key))
  {
    var b := FileName(o.key);
    MappingKeys(rows, b);
    if b in Mapping(rows) {
      var j := LastWith(rows, b);
      MappingLastWins(rows, j);
    }
  }

  /**
   * The join ignores the folder: an object is matched with a row stored under another key that ends
   * in the same file name (say "b/x.jpg" and "a/x.jpg"), and the entry then reports that row's path and URL.
   */
  lemma JoinIgnoresFolder(row: Photo, key: string)
    requires LastSegment(key, '/') != "" && LastSegment(row.b2_file_key, '/') == LastSegment(key, '/')
    requires row.b2_file_key != key
    ensures var e := EntryOf(Mapping([row]), ListedObject(Some(key), None, None));
      e.originalInfo == Some(InfoOf(row)) && e.originalInfo.value.b2Path != key
  {
    assert [row][..0] == [];
  }

  // ---------------------------------------------------------------- the handler

  /**
   * `GET`. `listing` is the outcome of listing the bucket (an error is caught by the outer handler);
   * `rows` is the outcome of the photos query, newest first.
   */
  function List(adminPassword: Option<string>, listing: Result<seq<ListedObject>, string>,
                rows: Result<seq<Photo>, string>): Response
  {
    if !B2.Truthy(adminPassword) then Response(500, false, Some(PasswordMissing), None)
    else if listing.Err? then Response(500, false, Some(ListingFailed), None)
    else if rows.Err? then Response(500, false, Some(PhotosFailed), None)
    else Response(200, true, None, Some(Entries(Mapping(rows.value), listing.value)))
  }

  method HandleList(adminPassword: Option<string>, listing: Result<seq<ListedObject>, string>,
                    rows: Result<seq<Photo>, string>) returns (res: Response)
    ensures res == List(adminPassword, listing, rows)
  {
    if !B2.Truthy(adminPassword) {
      return Response(500, false, Some(PasswordMissing), None);
    }
    if listing.Err? {
      return Response(500, false, Some(ListingFailed), None);
    }
    if rows.Err? {
      return Response(500, false, Some(PhotosFailed), None);
    }
    var m := BuildMapping(rows.value);
    res := Response(200, true, None, Some(Entries(m, listing.value)));
  }

  /** The error responses, and otherwise one entry per listed object. */
  lemma ListOutcome(adminPassword: Option<string>, listing: Result<seq<ListedObject>, string>,
                    rows: Result<seq<Photo>, string>)
    ensures var res := List(adminPassword, listing, rows);
      && (!B2.Truthy(adminPassword) ==> res == Response(500, false, Some(PasswordMissing), None))
      && (B2.Truthy(adminPassword) && listing.Err? ==> res == Response(500, false, Some(ListingFailed), None))
      && (B2.Truthy(adminPassword) && listing.Ok? && rows.Err? ==> res == Response(500, false, Some(PhotosFailed), None))
      && (res.success <==> B2.Truthy(adminPassword) && listing.Ok? && rows.Ok?)
      && (res.success ==> res.status == 200 && res.files.Some? && |res.files.value| == |listing.value|)
  {
    if B2.Truthy(adminPassword) && listing.Ok? && rows.Ok? {
      EntriesFollowListing(Mapping(rows.value), listing.value);
    }
  }
}
