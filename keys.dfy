/** Folder names read off '/'-separated storage keys. */
module Keys {

  import opened Strings
  import Records

  /** `fileName.split('/')[1]`; absent and empty both read as "" (both are falsy). */
  function Segment1(name: string): string
  {
    Segment(name, '/', 1).GetOr("")
  }

  /** `[...new Set(...)]` of segment 1 over the names that `counts` admits, in first-occurrence order. */
  function DistinctSegment1(names: seq<string>, counts: string -> bool): (r: seq<string>)
    ensures forall i, j :: 0 <= i < j < |r| ==> r[i] != r[j]
    ensures forall g :: g in r <==> exists i :: 0 <= i < |names| && counts(names[i]) && Segment1(names[i]) == g
    decreases |names|
  {
    if |names| == 0 then []
    else
      var front := names[..|names| - 1];
      var d := DistinctSegment1(front, counts);
      var n := names[|names| - 1];
      assert forall i :: 0 <= i < |front| ==> front[i] == names[i];
      if counts(n) && Segment1(n) !in d then d + [Segment1(n)] else d
  }

  /** The names of the listed objects that have a key, in listing order. */
  function KeyNames(objects: seq<Records.ListedObject>): (r: seq<string>)
    ensures |r| <= |objects|
    ensures forall k :: k in r <==> exists i :: 0 <= i < |objects| && Records.HasKey(objects[i]) && objects[i].key.value == k
    decreases |objects|
  {
    if |objects| == 0 then []
    else
      var front := objects[..|objects| - 1];
      var o := objects[|objects| - 1];
      assert forall i :: 0 <= i < |front| ==> front[i] == objects[i];
      KeyNames(front) + (if Records.HasKey(o) then [o.key.value] else [])
  }
}
