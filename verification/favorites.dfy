/** The favorites store of `src/contexts/FavoritesContext.tsx`: the list of
    hotel snapshots the browser has marked as favorite, keyed by hotel id,
    hydrated once from `localStorage` and written back after every change. */
module Favorites {
  import opened Common
  import opened Records
  import WebStorage

  /** The `localStorage` key the list is kept under. */
  const FAVORITES_KEY := "favorites"

  const OUTSIDE_PROVIDER := "useFavorites must be used within a FavoritesProvider"

  /** Some entry of the list has this id. */
  predicate HasId(favorites: seq<Hotel>, id: string) {
    exists i | 0 <= i < |favorites| :: favorites[i].id == id
  }

  /** No two entries share an id. */
  ghost predicate UniqueIds(favorites: seq<Hotel>) {
    forall i, j | 0 <= i < j < |favorites| :: favorites[i].id != favorites[j].id
  }

  /** The list after `addFavorite(hotel)`: unchanged when the id is already
      there, otherwise the hotel is appended. */
  function WithFavorite(favorites: seq<Hotel>, hotel: Hotel): (r: seq<Hotel>)
    ensures HasId(r, hotel.id)
    ensures favorites <= r
    ensures |r| == if HasId(favorites, hotel.id) then |favorites| else |favorites| + 1
    ensures !HasId(favorites, hotel.id) ==> r[|favorites|] == hotel
  {
    if HasId(favorites, hotel.id) then favorites
    else
      var r := favorites + [hotel];
      assert r[|favorites|].id == hotel.id;
      r
  }

  /** The list after `removeFavorite(id)`: every entry with that id is
      dropped, the others are kept in order. */
  function WithoutFavorite(favorites: seq<Hotel>, id: string): (r: seq<Hotel>)
    ensures !HasId(r, id)
    ensures |r| <= |favorites|
    ensures forall h :: h in r <==> h in favorites && h.id != id
  {
    if favorites == [] then []
    else
      var rest := WithoutFavorite(favorites[1..], id);
      if favorites[0].id == id then rest else [favorites[0]] + rest
  }

  /** Removing an id that is not there leaves the list as it was. */
  lemma {:induction false} WithoutAbsentIsIdentity(favorites: seq<Hotel>, id: string)
    requires !HasId(favorites, id)
    ensures WithoutFavorite(favorites, id) == favorites
  {
    if favorites != [] {
      assert favorites[0].id != id;
      assert !HasId(favorites[1..], id) by {
        forall i | 0 <= i < |favorites[1..]| ensures favorites[1..][i].id != id {
          assert favorites[1..][i] == favorites[i + 1];
        }
      }
      WithoutAbsentIsIdentity(favorites[1..], id);
      assert favorites == [favorites[0]] + favorites[1..];
    }
  }

  /** Removal works entry by entry, so it keeps the relative order of the
      entries it keeps. */
  lemma {:induction false} WithoutDistributes(a: seq<Hotel>, b: seq<Hotel>, id: string)
    ensures WithoutFavorite(a + b, id) == WithoutFavorite(a, id) + WithoutFavorite(b, id)
  {
    if a != [] {
      assert (a + b)[1..] == a[1..] + b;
      WithoutDistributes(a[1..], b, id);
    } else {
      assert a + b == b;
    }
  }

  /** `addFavorite` is idempotent. */
  lemma AddIdempotent(favorites: seq<Hotel>, hotel: Hotel)
    ensures WithFavorite(WithFavorite(favorites, hotel), hotel) == WithFavorite(favorites, hotel)
  {
  }

  /** Adding a hotel that was not a favorite and then removing its id gives
      back the original list, so in particular the count returns to its
      prior value and the id is no longer a favorite. */
  lemma AddThenRemove(favorites: seq<Hotel>, hotel: Hotel)
    requires !HasId(favorites, hotel.id)
    ensures WithoutFavorite(WithFavorite(favorites, hotel), hotel.id) == favorites
    ensures !HasId(WithoutFavorite(WithFavorite(favorites, hotel), hotel.id), hotel.id)
  {
    WithoutDistributes(favorites, [hotel], hotel.id);
    WithoutAbsentIsIdentity(favorites, hotel.id);
  }

  /** Adding keeps ids unique. */
  lemma AddKeepsUnique(favorites: seq<Hotel>, hotel: Hotel)
    requires UniqueIds(favorites)
    ensures UniqueIds(WithFavorite(favorites, hotel))
  {
  }

  /** Removing keeps ids unique. */
  lemma {:induction false} RemoveKeepsUnique(favorites: seq<Hotel>, id: string)
    requires UniqueIds(favorites)
    ensures UniqueIds(WithoutFavorite(favorites, id))
  {
    if favorites != [] {
      var tail := favorites[1..];
      assert UniqueIds(tail) by {
        forall i, j | 0 <= i < j < |tail| ensures tail[i].id != tail[j].id {
          assert tail[i] == favorites[i + 1] && tail[j] == favorites[j + 1];
        }
      }
      RemoveKeepsUnique(tail, id);
      var rest := WithoutFavorite(tail, id);
      if favorites[0].id != id {
        var r := [favorites[0]] + rest;
        forall i, j | 0 <= i < j < |r| ensures r[i].id != r[j].id {
          if i == 0 {
            assert r[j] in tail;
            var k :| 0 <= k < |tail| && tail[k] == r[j];
            assert favorites[k + 1] == r[j];
          } else {
            assert r[i] == rest[i - 1] && r[j] == rest[j - 1];
          }
        }
      }
    }
  }

  /** The list a fresh provider starts from: the decoded stored value when
      there is one that parses, and the empty list when the key is missing,
      empty or holds something that does not parse. */
  function Hydrated(stored: Option<string>, codec: Codec<seq<Hotel>>): (r: seq<Hotel>)
    ensures stored.None? || stored == Some("") ==> r == []
    ensures stored.Some? && codec.decode(stored.value).None? ==> r == []
    ensures stored.Some? && stored.value != "" && codec.decode(stored.value).Some? ==>
              r == codec.decode(stored.value).value
  {
    if stored.Some? && stored.value != "" then
      match codec.decode(stored.value)
      case Some(list) => list
      case None => []
    else []
  }

  /** What one provider wrote, the next one (after a reload) reads back. */
  lemma RestartRestores(favorites: seq<Hotel>, codec: Codec<seq<Hotel>>)
    requires Faithful(codec)
    ensures Hydrated(Some(codec.encode(favorites)), codec) == favorites
  {
  }

  /** The context's value: the favorites list, with `localStorage` as a
      write-behind mirror of it. */
  class FavoritesProvider {
    var favorites: seq<Hotel>
    const storage: WebStorage.Storage
    const codec: Codec<seq<Hotel>>

    /** After mounting, the stored value is always the encoding of the
        whole current list. */
    ghost predicate Valid()
      reads this, storage
    {
      FAVORITES_KEY in storage.items && storage.items[FAVORITES_KEY] == codec.encode(favorites)
    }

    /** Mounting: the state starts empty, the load effect hydrates it, and
        the save effect then writes the current list back. */
    constructor (storage: WebStorage.Storage, codec: Codec<seq<Hotel>>)
      modifies storage
      ensures this.storage == storage && this.codec == codec
      ensures favorites == Hydrated(old(storage.GetItem(FAVORITES_KEY)), codec)
      ensures storage.items == old(storage.items)[FAVORITES_KEY := codec.encode(favorites)]
      ensures Valid()
    {
      this.storage := storage;
      this.codec := codec;
      favorites := [];
      new;
      var stored := storage.GetItem(FAVORITES_KEY);
      if stored.Some? && stored.value != "" {
        match codec.decode(stored.value)
        case Some(list) => favorites := list;
        case None =>
      }
      Save();
    }

    /** The save effect: the whole list, serialised, under one key. */
    method Save()
      modifies storage
      ensures storage.items == old(storage.items)[FAVORITES_KEY := codec.encode(favorites)]
      ensures Valid()
    {
      storage.SetItem(FAVORITES_KEY, codec.encode(favorites));
    }

    /** `addFavorite(hotel)`. When the id is already there the state is
        returned as it was, so nothing re-renders and nothing is written. */
    method AddFavorite(hotel: Hotel)
      requires Valid()
      modifies this, storage
      ensures Valid()
      ensures favorites == WithFavorite(old(favorites), hotel)
      ensures HasId(old(favorites), hotel.id) ==> storage.items == old(storage.items)
      ensures storage.items == old(storage.items)[FAVORITES_KEY := codec.encode(favorites)]
    {
      if !HasId(favorites, hotel.id) {
        favorites := favorites + [hotel];
        Save();
      }
    }

    /** `removeFavorite(id)`. The filter always yields a new list, so the
        save effect runs even when nothing was removed. */
    method RemoveFavorite(id: string)
      requires Valid()
      modifies this, storage
      ensures Valid()
      ensures favorites == WithoutFavorite(old(favorites), id)
      ensures storage.items == old(storage.items)[FAVORITES_KEY := codec.encode(favorites)]
    {
      favorites := WithoutFavorite(favorites, id);
      Save();
    }

    /** `isFavorite(id)` */
    function IsFavorite(id: string): (b: bool)
      reads this
      ensures b <==> exists h :: h in favorites && h.id == id
    {
      HasId(favorites, id)
    }

    /** `favoritesCount` */
    function FavoritesCount(): (n: nat)
      reads this
      ensures n == |favorites|
    {
      |favorites|
    }
  }

  /** `useFavorites()`: the provider's value, or the error thrown outside a
      provider. */
  function UseFavorites(context: Option<FavoritesProvider>): (r: Result<FavoritesProvider>)
    ensures r.Success? <==> context.Some?
    ensures r.Success? ==> r.data == context.value
    ensures r.Failure? ==> r.error == OUTSIDE_PROVIDER
  {
    match context
    case Some(provider) => Success(provider)
    case None => Failure(OUTSIDE_PROVIDER)
  }
}
