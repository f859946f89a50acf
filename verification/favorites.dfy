/** Favourite tools: the store (src/stores/favorite-store.ts) and the
    heart button's optimistic toggle with rollback
    (src/components/tools/favorite-button.tsx). */
module Favorites {
  import opened Common

  datatype FavoriteState = FavoriteState(favoriteIds: seq<string>, isLoading: bool, error: Option<string>)

  predicate IsFavorite(st: FavoriteState, id: string) {
    id in st.favoriteIds
  }

  /** `Array.from(new Set([...ids, id]))` */
  function AddFavorite(st: FavoriteState, id: string): (r: FavoriteState)
    ensures IsFavorite(r, id)
    ensures NoDuplicates(r.favoriteIds)
    ensures forall x :: x in r.favoriteIds <==> x in st.favoriteIds || x == id
    ensures r.(favoriteIds := st.favoriteIds) == st
  {
    st.(favoriteIds := Dedup(st.favoriteIds + [id]))
  }

  function RemoveFavorite(st: FavoriteState, id: string): (r: FavoriteState)
    ensures !IsFavorite(r, id)
    ensures forall x :: x in r.favoriteIds <==> x in st.favoriteIds && x != id
    ensures |r.favoriteIds| <= |st.favoriteIds|
    ensures KeptInOrder(r.favoriteIds, st.favoriteIds, IsNot(id))
    ensures r.(favoriteIds := st.favoriteIds) == st
  {
    FilterIsKept(st.favoriteIds, IsNot(id));
    st.(favoriteIds := Filter(st.favoriteIds, IsNot(id)))
  }

  /** On a duplicate-free list, removing cuts the id out of its place and
      leaves the others in their order. */
  lemma RemoveCutsOut(st: FavoriteState, id: string, i: int)
    requires NoDuplicates(st.favoriteIds) && 0 <= i < |st.favoriteIds| && st.favoriteIds[i] == id
    ensures RemoveFavorite(st, id).favoriteIds == st.favoriteIds[..i] + st.favoriteIds[i + 1..]
  {
    FilterDropsOne(st.favoriteIds, i, IsNot(id));
  }

  function SetFavorites(st: FavoriteState, ids: seq<string>): (r: FavoriteState)
    ensures r.favoriteIds == ids && r.(favoriteIds := st.favoriteIds) == st
  {
    st.(favoriteIds := ids)
  }

  function ToggleFavorite(st: FavoriteState, id: string): (r: FavoriteState)
    ensures IsFavorite(r, id) <==> !IsFavorite(st, id)
    ensures forall x :: x != id ==> (IsFavorite(r, x) <==> IsFavorite(st, x))
    ensures r.(favoriteIds := st.favoriteIds) == st
  {
    if IsFavorite(st, id) then RemoveFavorite(st, id) else AddFavorite(st, id)
  }

  function SetLoading(st: FavoriteState, loading: bool): (r: FavoriteState)
    ensures r.isLoading == loading && r.(isLoading := st.isLoading) == st
  {
    st.(isLoading := loading)
  }

  function SetError(st: FavoriteState, error: Option<string>): (r: FavoriteState)
    ensures r.error == error && !r.isLoading && r.favoriteIds == st.favoriteIds
  {
    st.(error := error, isLoading := false)
  }

  /** De-duplication handles a concatenation piece by piece. */
  lemma {:induction false} DedupFromAppend(seen: seq<string>, a: seq<string>, b: seq<string>)
    requires NoDuplicates(seen)
    ensures DedupFrom(seen, a + b) == DedupFrom(DedupFrom(seen, a), b)
    decreases |a|
  {
    if |a| > 0 {
      assert (a + b)[0] == a[0];
      assert (a + b)[1..] == a[1..] + b;
      if a[0] in seen {
        DedupFromAppend(seen, a[1..], b);
      } else {
        DedupFromAppend(seen + [a[0]], a[1..], b);
      }
    } else {
      assert a + b == b;
    }
  }

  /** On a duplicate-free list, adding appends a new id at the end and
      leaves the list unchanged for an id already there. */
  lemma AddToDistinct(st: FavoriteState, id: string)
    requires NoDuplicates(st.favoriteIds)
    ensures id in st.favoriteIds ==> AddFavorite(st, id) == st
    ensures id !in st.favoriteIds ==> AddFavorite(st, id).favoriteIds == st.favoriteIds + [id]
  {
    var ids := st.favoriteIds;
    DedupFromAppend([], ids, [id]);
    DedupOfDistinct([], ids);
    assert [] + ids == ids;
    assert DedupFrom([], ids) == ids;
    if id in ids {
      assert DedupFrom(ids, [id]) == DedupFrom(ids, []);
    } else {
      assert DedupFrom(ids, [id]) == DedupFrom(ids + [id], []);
    }
  }

  /** Removing keeps a duplicate-free list duplicate-free, and removing an
      id the list does not hold changes nothing. */
  lemma RemovePreserves(st: FavoriteState, id: string)
    ensures NoDuplicates(st.favoriteIds) ==> NoDuplicates(RemoveFavorite(st, id).favoriteIds)
    ensures id !in st.favoriteIds ==> RemoveFavorite(st, id) == st
  {
    if NoDuplicates(st.favoriteIds) {
      FilterDistinct(st.favoriteIds, IsNot(id));
    }
    if id !in st.favoriteIds {
      FilterKeepsAll(st.favoriteIds, IsNot(id));
    }
  }

  /** Toggling an absent id twice restores a duplicate-free list exactly. */
  lemma ToggleTwiceAbsent(st: FavoriteState, id: string)
    requires NoDuplicates(st.favoriteIds) && id !in st.favoriteIds
    ensures ToggleFavorite(ToggleFavorite(st, id), id) == st
  {
    AddToDistinct(st, id);
    FilterAppend(st.favoriteIds, [id], IsNot(id));
    FilterKeepsAll(st.favoriteIds, IsNot(id));
    assert Filter([id], IsNot(id)) == [];
  }

  // ----- the heart button ---------------------------------------------------------

  datatype FavoriteCall = AddCall(toolId: string) | RemoveCall(toolId: string)

  /** `pending` holds the membership seen when the click was taken, while
      the request is in flight. */
  datatype Button = Button(store: FavoriteState, isUpdating: bool, pending: Option<bool>)

  /** A click: ignored while a request is in flight; otherwise the local
      membership flips at once and the matching request goes out. */
  function Click(b: Button, id: string): (r: (Button, Option<FavoriteCall>))
    ensures b.isUpdating ==> r == (b, None)
    ensures !b.isUpdating ==>
              && r.0.isUpdating
              && r.0.pending == Some(IsFavorite(b.store, id))
              && (IsFavorite(r.0.store, id) <==> !IsFavorite(b.store, id))
              && r.1 == Some(if IsFavorite(b.store, id) then RemoveCall(id) else AddCall(id))
  {
    if b.isUpdating then (b, None)
    else
      var wasFavorite := IsFavorite(b.store, id);
      var store := if wasFavorite then RemoveFavorite(b.store, id) else AddFavorite(b.store, id);
      (Button(store, true, Some(wasFavorite)), Some(if wasFavorite then RemoveCall(id) else AddCall(id)))
  }

  /** The request settles: a failure undoes the optimistic change; in every
      case the button is ready again. */
  function Settle(b: Button, id: string, ok: bool): (r: Button)
    requires b.pending.Some?
    ensures !r.isUpdating && r.pending.None?
    ensures ok ==> r.store == b.store
    ensures !ok ==> (IsFavorite(r.store, id) <==> b.pending.value)
  {
    var wasFavorite := b.pending.value;
    var store := if ok then b.store
                 else if wasFavorite then AddFavorite(b.store, id)
                 else RemoveFavorite(b.store, id);
    Button(store, false, None)
  }

  /** A click followed by its answer: success keeps the flipped membership,
      failure restores the membership from before the click, and the
      membership of every other tool is never touched. */
  lemma ClickSettle(b: Button, id: string, ok: bool)
    requires !b.isUpdating
    ensures var settled := Settle(Click(b, id).0, id, ok);
            && !settled.isUpdating
            && (IsFavorite(settled.store, id) <==> (if ok then !IsFavorite(b.store, id) else IsFavorite(b.store, id)))
            && (forall x :: x != id ==> (IsFavorite(settled.store, x) <==> IsFavorite(b.store, x)))
  {
  }

  /** For a tool that was not a favourite, a failed request puts a
      duplicate-free list back exactly as it was. */
  lemma FailedAddRollsBackExactly(b: Button, id: string)
    requires !b.isUpdating && NoDuplicates(b.store.favoriteIds) && id !in b.store.favoriteIds
    ensures Settle(Click(b, id).0, id, false).store == b.store
  {
    ToggleTwiceAbsent(b.store, id);
  }
}
