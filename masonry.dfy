/**
 * The masonry gallery: one tile per photo, in order, keyed by the photo id, whose image source is
 * the optimized URL when there is one, whose alt text names the photo's file, and whose size is the
 * photo's capped at 600 by 800, with those sizes standing in for a missing or zero dimension.
 */
module Masonry {

  import opened Wrappers
  import opened Records
  import PhotoModal

  datatype Tile = Tile(key: string, src: string, alt: string, width: int, height: int)

  const MaxWidth := 600
  const MaxHeight := 800

  /** `d ? Math.min(d, cap) : cap`: a missing or zero dimension is falsy. */
  function Capped(d: Option<int>, cap: int): int
  {
    if d.Some? && d.value != 0 then (if d.value < cap then d.value else cap) else cap
  }

  function TileOf(p: Photo): Tile
  {
    Tile(p.id,
         if p.optimized_url.Some? && p.optimized_url.value != "" then p.optimized_url.value else p.public_url,
         "Gallery photo " + PhotoModal.Title(p),
         Capped(p.width, MaxWidth),
         Capped(p.height, MaxHeight))
  }

  /** `photos.map(...)`. */
  function Tiles(photos: seq<Photo>): seq<Tile>
    decreases |photos|
  {
    if |photos| == 0 then [] else [TileOf(photos[0])] + Tiles(photos[1..])
  }

  /** One tile per photo, in order, keyed by the photo's id. */
  lemma {:induction false} TilesFollowPhotos(photos: seq<Photo>)
    ensures |Tiles(photos)| == |photos|
    ensures forall i :: 0 <= i < |photos| ==> Tiles(photos)[i] == TileOf(photos[i]) && Tiles(photos)[i].key == photos[i].id
    decreases |photos|
  {
    if |photos| > 0 {
      TilesFollowPhotos(photos[1..]);
      forall i | 0 < i < |photos|
        ensures Tiles(photos)[i] == TileOf(photos[i])
      {
        assert Tiles(photos)[i] == Tiles(photos[1..])[i - 1];
        assert photos[1..][i - 1] == photos[i];
      }
    }
  }

  /**
   * A dimension never exceeds its cap; a positive one is kept when it fits and capped otherwise; a
   * missing or zero one is the cap itself.
   */
  lemma CappedBounds(d: Option<int>, cap: int)
    ensures Capped(d, cap) <= cap
    ensures d.Some? && 0 < d.value <= cap ==> Capped(d, cap) == d.value
    ensures d.Some? && d.value > cap ==> Capped(d, cap) == cap
    ensures d.None? || d.value == 0 ==> Capped(d, cap) == cap
    ensures (d.None? || d.value >= 0) && cap > 0 ==> Capped(d, cap) > 0
  {
  }

  /** The source is the optimized URL exactly when one is set, and the public URL otherwise; the alt text is the modal's title. */
  lemma TileSource(p: Photo)
    ensures p.optimized_url.None? || p.optimized_url.value == "" ==> TileOf(p).src == p.public_url
    ensures p.optimized_url.Some? && p.optimized_url.value != "" ==> TileOf(p).src == p.optimized_url.value
    ensures TileOf(p).alt == "Gallery photo " + PhotoModal.Title(p)
    ensures TileOf(p).width <= MaxWidth && TileOf(p).height <= MaxHeight
  {
    CappedBounds(p.width, MaxWidth);
    CappedBounds(p.height, MaxHeight);
  }
}
