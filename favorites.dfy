/** The favourites loop of the bookmark script's `main`: for each favourite
    level id, in order, find its lookup key in the song-hash index, ask the
    bookmark service for the map with that key, and ask the service to
    bookmark the map unless the user's bookmarks (fetched once, before the
    loop) already hold it.

    The two service calls are parameters: `getMapByKey` answers a key with a
    map or nothing, and `bookmarkAdd` answers an add with success or failure,
    given every call made before it in the run (the service may remember
    them). The loop's effect on the service is the sequence of calls it
    issues, which the model records. */
module Favorites {
  import opened MapKeys

  /** A map's id on the bookmark service. */
  type MapId = int

  /** The part of a service map record that the loop reads. */
  datatype RemoteMap = RemoteMap(id: MapId, title: string)

  /** A call the loop makes to the bookmark service. */
  datatype RemoteCall = GetMapByKey(key: string) | BookmarkAdd(id: MapId)

  /** `userBookmarks.maps.map((map) => map.id)`: the ids of the user's
      bookmarked maps, in order. */
  function BookmarkIds(maps: seq<RemoteMap>): (r: seq<MapId>)
    ensures |r| == |maps|
    ensures forall i :: 0 <= i < |maps| ==> r[i] == maps[i].id
  {
    if maps == [] then [] else [maps[0].id] + BookmarkIds(maps[1..])
  }

  /** The lookup key the loop computes for one favourite:
      `beastSaberMapKey(songHashData, beatSaverMapID(levelId))`. */
  function LevelKey(levelId: string, index: seq<IndexEntry>): string {
    KeyFor(index, BeatSaverMapId(levelId))
  }

  /** The lookup keys of a list of favourites, in order. */
  function Keys(favorites: seq<string>, index: seq<IndexEntry>): (r: seq<string>)
    ensures |r| == |favorites|
    ensures forall i :: 0 <= i < |favorites| ==> r[i] == LevelKey(favorites[i], index)
  {
    if favorites == [] then [] else [LevelKey(favorites[0], index)] + Keys(favorites[1..], index)
  }

  /** The service calls the loop makes for one favourite whose lookup key is
      `key`: none for the sentinel, else a lookup, and an add when the lookup
      returned a map that is not among the user's bookmarks. */
  function CallsFor(key: string, bookmarkIds: seq<MapId>, getMapByKey: string -> Option<RemoteMap>): seq<RemoteCall>
  {
    if key == NotFound then []
    else match getMapByKey(key)
      case None => [GetMapByKey(key)]
      case Some(m) =>
        if m.id in bookmarkIds then [GetMapByKey(key)]
        else [GetMapByKey(key), BookmarkAdd(m.id)]
  }

  /** The service calls the loop makes for favourites with lookup keys
      `keys`, in order. */
  function Calls(keys: seq<string>, bookmarkIds: seq<MapId>, getMapByKey: string -> Option<RemoteMap>): seq<RemoteCall>
  {
    if keys == [] then []
    else CallsFor(keys[0], bookmarkIds, getMapByKey) + Calls(keys[1..], bookmarkIds, getMapByKey)
  }

  /** The ids sent to `bookmarkAdd` in a sequence of calls, in order. */
  function AddedIds(calls: seq<RemoteCall>): seq<MapId>
  {
    if calls == [] then []
    else (if calls[0].BookmarkAdd? then [calls[0].id] else []) + AddedIds(calls[1..])
  }

  /** The adds in `calls`, made after the calls in `history`, that the service
      refused, in order. */
  function FailedFrom(history: seq<RemoteCall>, calls: seq<RemoteCall>,
                      bookmarkAdd: (seq<RemoteCall>, MapId) -> bool): seq<MapId>
    decreases calls
  {
    if calls == [] then []
    else
      (if calls[0].BookmarkAdd? && !bookmarkAdd(history, calls[0].id) then [calls[0].id] else []) +
      FailedFrom(history + [calls[0]], calls[1..], bookmarkAdd)
  }

  /** Favourites are processed in input order: the calls for a concatenation of
      key lists are the calls for the first list, then for the second. */
  lemma {:induction false} CallsAppend(a: seq<string>, b: seq<string>, bookmarkIds: seq<MapId>,
                                       getMapByKey: string -> Option<RemoteMap>)
    ensures Calls(a + b, bookmarkIds, getMapByKey) == Calls(a, bookmarkIds, getMapByKey) + Calls(b, bookmarkIds, getMapByKey)
  {
    if a == [] {
      assert a + b == b;
    } else {
      assert (a + b)[0] == a[0];
      assert (a + b)[1..] == a[1..] + b;
      CallsAppend(a[1..], b, bookmarkIds, getMapByKey);
    }
  }

  /** The failures of a concatenation of call lists are those of the first,
      then those of the second made after the first. */
  lemma {:induction false} FailedFromAppend(history: seq<RemoteCall>, a: seq<RemoteCall>, b: seq<RemoteCall>,
                                            bookmarkAdd: (seq<RemoteCall>, MapId) -> bool)
    ensures FailedFrom(history, a + b, bookmarkAdd)
            == FailedFrom(history, a, bookmarkAdd) + FailedFrom(history + a, b, bookmarkAdd)
    decreases a
  {
    if a == [] {
      assert a + b == b;
      assert history + a == history;
    } else {
      assert (a + b)[0] == a[0];
      assert (a + b)[1..] == a[1..] + b;
      assert history + [a[0]] + a[1..] == history + a;
      FailedFromAppend(history + [a[0]], a[1..], b, bookmarkAdd);
    }
  }

  /** One more favourite adds its own calls at the end. */
  lemma CallsSnoc(keys: seq<string>, i: nat, bookmarkIds: seq<MapId>,
                  getMapByKey: string -> Option<RemoteMap>)
    requires i < |keys|
    ensures Calls(keys[..i + 1], bookmarkIds, getMapByKey)
            == Calls(keys[..i], bookmarkIds, getMapByKey) + CallsFor(keys[i], bookmarkIds, getMapByKey)
  {
    assert keys[..i + 1] == keys[..i] + [keys[i]];
    CallsAppend(keys[..i], [keys[i]], bookmarkIds, getMapByKey);
    assert [keys[i]][1..] == [];
  }

  /** The body of the favourites loop for one favourite: the calls it makes
      after the calls in `history`, and the ids of the adds among them that
      the service refused. Each `return` is one of the source's `continue`s
      (or the end of the body). */
  method SyncFavorite(levelId: string, songHashData: seq<IndexEntry>, userBookmarkIds: seq<MapId>,
                      getMapByKey: string -> Option<RemoteMap>,
                      bookmarkAdd: (seq<RemoteCall>, MapId) -> bool,
                      history: seq<RemoteCall>)
    returns (step: seq<RemoteCall>, stepFailed: seq<MapId>)
    ensures step == CallsFor(LevelKey(levelId, songHashData), userBookmarkIds, getMapByKey)
    ensures stepFailed == FailedFrom(history, step, bookmarkAdd)
  {
    step, stepFailed := [], [];
    var bSaberMapKey := BeastSaberMapKey(songHashData, BeatSaverMapId(levelId));
    if bSaberMapKey == NotFound {
      return;
    }
    var remote := getMapByKey(bSaberMapKey);
    var lookup := GetMapByKey(bSaberMapKey);
    step := [lookup];
    assert FailedFrom(history, step, bookmarkAdd) == FailedFrom(history + step, [], bookmarkAdd);
    if remote.None? {
      return;
    }
    var id := remote.value.id;
    if id in userBookmarkIds {
      return;
    }
    var success := bookmarkAdd(history + step, id);
    step := [lookup, BookmarkAdd(id)];
    assert step[1..] == [BookmarkAdd(id)];
    assert FailedFrom(history, step, bookmarkAdd) == FailedFrom(history + [lookup], [BookmarkAdd(id)], bookmarkAdd);
    assert FailedFrom(history + [lookup], [BookmarkAdd(id)], bookmarkAdd) == (if success then [] else [id]);
    if !success {
      stepFailed := [id];
    }
  }

  /** The favourites loop (with the computation of `userBookmarkIds` before it).
      It returns the service calls it made, in order, and the ids whose add
      the service refused. */
  method SyncFavorites(favoritesLevelIds: seq<string>, songHashData: seq<IndexEntry>,
                       userBookmarks: seq<RemoteMap>,
                       getMapByKey: string -> Option<RemoteMap>,
                       bookmarkAdd: (seq<RemoteCall>, MapId) -> bool)
    returns (calls: seq<RemoteCall>, failed: seq<MapId>)
    ensures calls == Calls(Keys(favoritesLevelIds, songHashData), BookmarkIds(userBookmarks), getMapByKey)
    ensures failed == FailedFrom([], calls, bookmarkAdd)
  {
    var userBookmarkIds := BookmarkIds(userBookmarks);
    ghost var keys := Keys(favoritesLevelIds, songHashData);
    calls, failed := [], [];
    for i := 0 to |favoritesLevelIds|
      invariant calls == Calls(keys[..i], userBookmarkIds, getMapByKey)
      invariant failed == FailedFrom([], calls, bookmarkAdd)
    {
      var step, stepFailed := SyncFavorite(favoritesLevelIds[i], songHashData, userBookmarkIds,
                                           getMapByKey, bookmarkAdd, calls);
      CallsSnoc(keys, i, userBookmarkIds, getMapByKey);
      FailedFromAppend([], calls, step, bookmarkAdd);
      assert [] + calls == calls;
      calls, failed := calls + step, failed + stepFailed;
    }
    assert keys[..|keys|] == keys;
  }

  // ---------------------------------------------------------------------------
  // Properties of the loop
  // ---------------------------------------------------------------------------

  /** A favourite whose key is the sentinel triggers no lookup, and every
      other favourite triggers a lookup of its key. */
  lemma {:induction false} LookupIssuedIff(keys: seq<string>, bookmarkIds: seq<MapId>,
                                           getMapByKey: string -> Option<RemoteMap>, key: string)
    ensures GetMapByKey(key) in Calls(keys, bookmarkIds, getMapByKey) <==> key != NotFound && key in keys
  {
    if keys != [] {
      LookupIssuedIff(keys[1..], bookmarkIds, getMapByKey, key);
      assert keys == [keys[0]] + keys[1..];
    }
  }

  /** The lookup of `key` returns map `id`. */
  predicate ResolvesTo(key: string, getMapByKey: string -> Option<RemoteMap>, id: MapId) {
    getMapByKey(key).Some? && getMapByKey(key).value.id == id
  }

  /** An add is issued for `id` exactly when `id` is not among the user's
      bookmarks and some favourite's found key resolves to it. In particular
      no add is issued for a map the user had already bookmarked. */
  lemma {:induction false} AddIssuedIff(keys: seq<string>, bookmarkIds: seq<MapId>,
                                        getMapByKey: string -> Option<RemoteMap>, id: MapId)
    ensures BookmarkAdd(id) in Calls(keys, bookmarkIds, getMapByKey) <==>
            id !in bookmarkIds &&
            exists i :: 0 <= i < |keys| && keys[i] != NotFound && ResolvesTo(keys[i], getMapByKey, id)
  {
    if keys != [] {
      var rest := keys[1..];
      AddIssuedIff(rest, bookmarkIds, getMapByKey, id);
      if exists i :: 0 <= i < |keys| && keys[i] != NotFound && ResolvesTo(keys[i], getMapByKey, id) {
        var i :| 0 <= i < |keys| && keys[i] != NotFound && ResolvesTo(keys[i], getMapByKey, id);
        if i > 0 {
          assert rest[i - 1] == keys[i];
        }
      }
      if exists i :: 0 <= i < |rest| && rest[i] != NotFound && ResolvesTo(rest[i], getMapByKey, id) {
        var i :| 0 <= i < |rest| && rest[i] != NotFound && ResolvesTo(rest[i], getMapByKey, id);
        assert keys[i + 1] == rest[i];
      }
    }
  }

  /** Every add comes right after the lookup that returned the map it adds. */
  predicate AddsFollowLookups(calls: seq<RemoteCall>, getMapByKey: string -> Option<RemoteMap>)
  {
    forall j :: 0 <= j < |calls| && calls[j].BookmarkAdd? ==>
      0 < j && calls[j - 1].GetMapByKey? && ResolvesTo(calls[j - 1].key, getMapByKey, calls[j].id)
  }

  /** A null lookup triggers no add: the calls of every run have that shape. */
  lemma {:induction false} CallsAddsFollowLookups(keys: seq<string>, bookmarkIds: seq<MapId>,
                                                  getMapByKey: string -> Option<RemoteMap>)
    ensures AddsFollowLookups(Calls(keys, bookmarkIds, getMapByKey), getMapByKey)
  {
    if keys != [] {
      var step := CallsFor(keys[0], bookmarkIds, getMapByKey);
      var rest := Calls(keys[1..], bookmarkIds, getMapByKey);
      CallsAddsFollowLookups(keys[1..], bookmarkIds, getMapByKey);
      var all := step + rest;
      forall j | 0 <= j < |all| && all[j].BookmarkAdd?
        ensures 0 < j && all[j - 1].GetMapByKey? && ResolvesTo(all[j - 1].key, getMapByKey, all[j].id)
      {
        if j < |step| {
          assert all[j] == step[j];
          assert j == 1 && all[0] == step[0];
        } else {
          assert all[j] == rest[j - |step|];
          assert all[j - 1] == rest[j - |step| - 1];
        }
      }
    }
  }

  /** At most two calls (a lookup and an add) per favourite. */
  lemma {:induction false} CallsBound(keys: seq<string>, bookmarkIds: seq<MapId>,
                                      getMapByKey: string -> Option<RemoteMap>)
    ensures |Calls(keys, bookmarkIds, getMapByKey)| <= 2 * |keys|
  {
    if keys != [] {
      CallsBound(keys[1..], bookmarkIds, getMapByKey);
    }
  }

  /** The ids added by a concatenation of call lists. */
  lemma {:induction false} AddedIdsAppend(a: seq<RemoteCall>, b: seq<RemoteCall>)
    ensures AddedIds(a + b) == AddedIds(a) + AddedIds(b)
  {
    if a == [] {
      assert a + b == b;
    } else {
      assert (a + b)[0] == a[0];
      assert (a + b)[1..] == a[1..] + b;
      AddedIdsAppend(a[1..], b);
    }
  }

  /** `userBookmarkIds` is computed once, before the loop, and never updated:
      a favourite listed twice whose key resolves to a map the user has not
      bookmarked is added twice. */
  lemma RepeatedFavoriteAddedTwice(key: string, bookmarkIds: seq<MapId>,
                                   getMapByKey: string -> Option<RemoteMap>, id: MapId)
    requires key != NotFound && ResolvesTo(key, getMapByKey, id) && id !in bookmarkIds
    ensures AddedIds(Calls([key, key], bookmarkIds, getMapByKey)) == [id, id]
  {
    var step := [GetMapByKey(key), BookmarkAdd(id)];
    assert CallsFor(key, bookmarkIds, getMapByKey) == step;
    assert [key, key][1..] == [key];
    assert [key][1..] == [];
    assert Calls([key], bookmarkIds, getMapByKey) == step;
    assert Calls([key, key], bookmarkIds, getMapByKey) == step + step;
    assert AddedIds(step[1..][1..]) == [];
    assert AddedIds(step[1..]) == [id];
    assert AddedIds(step) == [id];
    AddedIdsAppend(step, step);
  }

  /** Every refused add is an add of the run, and there are no more refusals
      than adds. */
  lemma {:induction false} FailedAreAdds(history: seq<RemoteCall>, calls: seq<RemoteCall>,
                                         bookmarkAdd: (seq<RemoteCall>, MapId) -> bool)
    ensures |FailedFrom(history, calls, bookmarkAdd)| <= |AddedIds(calls)|
    ensures forall id :: id in FailedFrom(history, calls, bookmarkAdd) ==> id in AddedIds(calls)
    decreases calls
  {
    if calls != [] {
      FailedAreAdds(history + [calls[0]], calls[1..], bookmarkAdd);
    }
  }
}
