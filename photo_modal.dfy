/**
 * The photo modal: whether the shown photo is a favourite, the toggle that removes it from or adds
 * it to the stored favourites list, the title it shows, and the Escape key. The stored list
 * (`luxsync_favorites` in local storage) is a field of ids.
 */
module PhotoModal {

  import opened Strings
  import opened Records
  import opened Wrappers

  // ---------------------------------------------------------------- the favourites list

  /** `favorites.filter(id => id !== x)`. */
  function Unfavored(favorites: seq<string>, x: string): seq<string>
    decreases |favorites|
  {
    if |favorites| == 0 then []
    else Unfavored(favorites[..|favorites| - 1], x) + (if favorites[|favorites| - 1] == x then [] else [favorites[|favorites| - 1]])
  }

  /** Removing drops every occurrence of the id, keeps every other id, and leaves a list without it unchanged. */
  lemma {:induction false} UnfavoredDropsOnlyId(favorites: seq<string>, x: string)
    ensures x !in Unfavored(favorites, x)
    ensures forall y :: y != x ==> (y in Unfavored(favorites, x) <==> y in favorites)
    ensures x !in favorites ==> Unfavored(favorites, x) == favorites
    decreases |favorites|
  {
    if |favorites| > 0 {
      var front := favorites[..|favorites| - 1];
      UnfavoredDropsOnlyId(front, x);
      assert favorites == front + [favorites[|favorites| - 1]];
    }
  }

  /** Removing works piece by piece, so the remaining ids keep their order. */
  lemma {:induction false} UnfavoredSplits(a: seq<string>, b: seq<string>, x: string)
    ensures Unfavored(a + b, x) == Unfavored(a, x) + Unfavored(b, x)
    decreases |b|
  {
    if |b| == 0 {
      assert a + b == a;
    } else {
      assert (a + b)[..|a + b| - 1] == a + b[..|b| - 1];
      UnfavoredSplits(a, b[..|b| - 1], x);
    }
  }

  /** The list a toggle writes back: without the id when the photo was a favourite, else with the id appended. */
  function Toggled(favorites: seq<string>, x: string, wasFavorite: bool): seq<string>
  {
    if wasFavorite then Unfavored(favorites, x) else favorites + [x]
  }

  /** After a toggle the id is stored exactly when it was not a favourite before; no other id changes. */
  lemma ToggledMembership(favorites: seq<string>, x: string, wasFavorite: bool)
    ensures x in Toggled(favorites, x, wasFavorite) <==> !wasFavorite
    ensures forall y :: y != x ==> (y in Toggled(favorites, x, wasFavorite) <==> y in favorites)
    ensures !wasFavorite ==> Toggled(favorites, x, wasFavorite) == favorites + [x]
  {
    UnfavoredDropsOnlyId(favorites, x);
  }

  /** Adding an id that was not stored and then removing it gives back the list as it was. */
  lemma ToggleTwiceRestores(favorites: seq<string>, x: string)
    requires x !in favorites
    ensures Toggled(Toggled(favorites, x, false), x, true) == favorites
  {
    UnfavoredSplits(favorites, [x], x);
    UnfavoredDropsOnlyId(favorites, x);
    assert [x][..0] == [];
  }

  // ---------------------------------------------------------------- the title

  /** `(photo.b2_file_key || photo.id).split('/').pop()`. */
  function Title(p: Photo): string
  {
    LastSegment(if p.b2_file_key != "" then p.b2_file_key else p.id, '/')
  }

  /** The title is the text after the last '/' of the key, or of the id when the key is empty. */
  lemma TitleIsLastSegment(p: Photo)
    ensures var s := if p.b2_file_key != "" then p.b2_file_key else p.id;
      Title(p) == s[LastIndexOf(s, '/') + 1..] && '/' !in Title(p)
  {
    var s := if p.b2_file_key != "" then p.b2_file_key else p.id;
    LastSegmentIsSuffix(s, '/');
  }

  // ---------------------------------------------------------------- the modal

  class Modal {
    var photo: Option<Photo>
    /** The ids stored under `luxsync_favorites`. */
    var favorites: seq<string>
    var isFavorite: bool
    /** How many times `onClose` has been called. */
    var closeRequests: nat

    constructor (stored: seq<string>)
      ensures photo == None && favorites == stored && !isFavorite && closeRequests == 0
    {
      photo, favorites, isFavorite, closeRequests := None, stored, false, 0;
    }

    /** The flag agrees with the stored list for the shown photo. */
    predicate Synced()
      reads this
    {
      photo.Some? ==> (isFavorite <==> photo.value.id in favorites)
    }

    /** The effect on a new `photo`: a photo's flag is read from the stored list; no photo leaves it. */
    method Show(p: Option<Photo>)
      modifies this
      ensures photo == p && favorites == old(favorites) && closeRequests == old(closeRequests)
      ensures p.Some? ==> isFavorite == (p.value.id in favorites)
      ensures p.None? ==> isFavorite == old(isFavorite)
      ensures Synced()
    {
      photo := p;
      if p.Some? {
        isFavorite := p.value.id in favorites;
      }
    }

    /** `toggleFavorite`: nothing without a photo; otherwise write the toggled list back and flip the flag. */
    method Toggle()
      modifies this
      ensures photo == old(photo) && closeRequests == old(closeRequests)
      ensures old(photo).None? ==> favorites == old(favorites) && isFavorite == old(isFavorite)
      ensures old(photo).Some? ==>
        favorites == Toggled(old(favorites), old(photo).value.id, old(isFavorite)) && isFavorite == !old(isFavorite)
      ensures old(Synced()) ==> Synced()
    {
      if photo.None? {
        return;
      }
      var id := photo.value.id;
      ToggledMembership(favorites, id, isFavorite);
      favorites := Toggled(favorites, id, isFavorite);
      isFavorite := !isFavorite;
    }

    /** The `keydown` listener: Escape asks to close, any other key does nothing. */
    method KeyDown(key: string)
      modifies this
      ensures photo == old(photo) && favorites == old(favorites) && isFavorite == old(isFavorite)
      ensures closeRequests == old(closeRequests) + (if key == "Escape" then 1 else 0)
    {
      if key == "Escape" {
        closeRequests := closeRequests + 1;
      }
    }
  }
}
