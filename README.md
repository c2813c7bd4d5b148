# Beat Saber favourites → BeastSaber bookmarks, modelled in Dafny

The bookmark script (`script.ts`) reads a player's favourite levels from the
Beat Saber player data and the SongCore song-hash index. It turns each
favourite level id into a BeastSaber map key, looks the map up on BeastSaber,
and bookmarks it unless the user has already bookmarked it.

This project models the core of that script in three modules:

- `JsString` (`js_string.dfy`): the JavaScript `String` built-ins the script
  relies on. These are `indexOf` with a string pattern, `replace` with a
  string pattern (first occurrence only), and `charAt` (which gives `""` out
  of range).
- `MapKeys` (`map_keys.dfy`): the three helpers `beatSaverMapID`,
  `extractBeastSaberMapKey` and `beastSaberMapKey`.
  - The song-hash index is the sequence of its (folder-path key, `songHash`)
    pairs, in `for..in` order.
  - `extractBeastSaberMapKey` is modelled twice. One version follows the code
    as written; it can run forever. The other is a bounds-checked version that
    the rest of the model uses. See "## Findings".
- `Favorites` (`favorites.dfy`): the favourites loop of `main`.
  - The two BeastSaber calls inside the loop are parameters.
    - `getMapByKey` answers a key with a map or nothing.
    - `bookmarkAdd` answers an add with success or failure, given every call
      made before it in the run.
  - The loop's effect on BeastSaber is the sequence of calls it issues. The
    loop returns that sequence together with the ids whose add was refused.

Two places where the script's own comments promise more than its code does;
the model follows the code:

- The comment on `beatSaverMapID` (script.ts:40) speaks of "removing a
  specific prefix". The code (script.ts:46) deletes the first occurrence of
  `custom_level_` wherever it stands (`MapKeys.RemovesInnerOccurrence`).
- The comment on the loop (script.ts:131) speaks of "bookmarking any not
  already bookmarked". The code computes `userBookmarkIds` once, before the
  loop (script.ts:120), and the test at script.ts:137 never sees maps added
  during the run. A favourite listed twice is therefore added twice
  (`Favorites.RepeatedFavoriteAddedTwice`).

## Model

| member | source | states |
|---|---|---|
| JsString.IndexOf | script.ts:56 | `indexOf` gives -1 exactly when the pattern occurs nowhere; otherwise it gives an occurrence before which there is none |
| JsString.ReplaceFirst | script.ts:46 | `replace` with a string pattern leaves the string unchanged when the pattern is absent, and otherwise splices the replacement in place of the first occurrence only |
| JsString.CharAt | script.ts:59-62 | `charAt` gives the one-character string at an index in range, and `""` exactly when the index is out of range |
| JsString.IndexOfExtend | script.ts:56 | appending text after a string that already contains the pattern does not move the first occurrence |
| MapKeys.BeatSaverMapId | script.ts:45-47 | a level id with no `custom_level_` is returned as is; otherwise its first occurrence is cut out |
| MapKeys.StripsLevelPrefix | script.ts:45-47 | `custom_level_` followed by a hash normalises to that hash |
| MapKeys.RemovesInnerOccurrence | script.ts:46 | the deletion is not anchored: `x` + `custom_level_` + `h` becomes `xh` |
| MapKeys.RemovesOnlyFirstOccurrence | script.ts:46 | only one occurrence is deleted: a doubled prefix leaves one copy |
| MapKeys.BeatSaverMapIdUnchangedIff | script.ts:45-47 | the id comes back unchanged exactly when `custom_level_` occurs nowhere in it; whenever it changes, it is exactly 13 characters shorter |
| MapKeys.FirstSpaceFrom | script.ts:58-63 | the scan for `' '` finds the first space at or after its start, or reports that there is none |
| MapKeys.ScanStart | script.ts:56-57 | the scan never starts below 12, and starts at exactly 12 (that is, -1 + 13) precisely when `CustomLevels\` occurs nowhere in the key |
| MapKeys.ExtractAsWritten | script.ts:55-65 | the scan as written never stops exactly when no space lies at or after its start; when it stops, its result holds no space |
| MapKeys.ExtractedKey | script.ts:55-65 | a key is extracted exactly when the delimiter is present and a space follows the scan start; the key is the text from the scan start up to that first space, and holds no space |
| MapKeys.ExtractBeastSaberMapKey | script.ts:55-65 | the `charAt` loop of `extractBeastSaberMapKey`, bounded by the key's length, computes `ExtractedKey` |
| MapKeys.ExtractedKeyAgreesWithSource | script.ts:55-65 | whenever the delimiter is present, the version as written stops exactly when the bounded version finds a key, and both give the same key |
| MapKeys.ExtractedKeyOfFolder | script.ts:55-65 | an index key `<dirs>CustomLevels\<key> <rest>` whose first delimiter follows `<dirs>` yields `<key>` whenever `<key>` holds no space |
| MapKeys.ExtractedKeyExample | script.ts:55-65 | `X\CustomLevels\1abc (Title - Author)\foo` yields `1abc` |
| MapKeys.AsWrittenMissingDelimiter | script.ts:56-57 | as written, a key without the delimiter is scanned from offset 12: `abcdefghijklmn o` gives `mn`, where the bounded version gives none |
| MapKeys.AsWrittenNoSpaceDiverges | script.ts:59-63 | as written, `CustomLevels\abc` (no space after the delimiter) never stops, where the bounded version gives none |
| MapKeys.SentinelUnambiguous | script.ts:80 | no extracted key equals `Not Found`, so the sentinel tested at script.ts:134 cannot be a real key |
| MapKeys.FirstMatch | script.ts:75-76 | finds the first index entry whose `songHash` equals the id, or reports that no entry matches |
| MapKeys.BeastSaberMapKey | script.ts:74-81 | the `for..in` search returns at the first matching entry with that entry's extracted key, and gives `Not Found` when nothing matches |
| MapKeys.KeyForNotFoundIff | script.ts:74-81 | `Not Found` comes back exactly when no entry matches, or when the first match's key holds no extractable map key |
| MapKeys.KeyForFirstMatch | script.ts:75-77 | the first matching entry alone decides the answer |
| MapKeys.FirstMatchIgnoresLater | script.ts:75-77 | entries after a match are never consulted |
| MapKeys.KeyForIgnoresLater | script.ts:74-81 | appending entries after a matching one does not change the answer |
| Favorites.BookmarkIds | script.ts:120 | `userBookmarkIds` lists the ids of the user's bookmarks, one per bookmark, in order |
| Favorites.Keys | script.ts:132-133 | each favourite's lookup key is `beastSaberMapKey(songHashData, beatSaverMapID(levelId))`, kept in favourite order |
| Favorites.SyncFavorite | script.ts:133-151 | one pass of the loop body issues no call for `Not Found`, otherwise a lookup, plus an add when the lookup returns a map not yet bookmarked; it reports that add as failed exactly when the service refuses it |
| Favorites.SyncFavorites | script.ts:120-152 | the loop issues, in favourite order, the calls of every favourite, and collects the refused adds in call order |
| Favorites.CallsAppend | script.ts:132 | favourites are processed in order: the calls for two lists of favourites joined are the calls for the first list, then for the second |
| Favorites.LookupIssuedIff | script.ts:134-135 | a key is looked up exactly when some favourite has that key and the key is not `Not Found` |
| Favorites.AddIssuedIff | script.ts:136-140 | an add for a map id is issued exactly when the id is not among the user's bookmarks and some favourite's key (not `Not Found`) resolves to it; in particular an already-bookmarked map is never added |
| Favorites.CallsAddsFollowLookups | script.ts:135-140 | every add immediately follows the lookup that returned the map it adds, so a null lookup triggers no add |
| Favorites.CallsBound | script.ts:132-152 | the loop makes at most two calls per favourite |
| Favorites.RepeatedFavoriteAddedTwice | script.ts:120-140 | the bookmark list is not updated during the loop, so a favourite listed twice that resolves to an unbookmarked map is added twice |
| Favorites.FailedAreAdds | script.ts:140-143 | every reported failure is an id that was sent to `bookmarkAdd`, and there are no more failures than adds |

## Left out

- `readDataFromFile` (file reading and `JSON.parse`): the player data and the song-hash index are inputs to the model.
- `getHomeDirectory` and `path.join`: the model does not build paths.
- Command-line parsing (`--username`, `--beatsaber-dir`) and reading the credential files: these are I/O and only choose inputs.
- `login`, `isLoggedIn` and `getBookmarkedBy`: these are network calls. The user's bookmarks are a parameter of `Favorites.SyncFavorites`.
- `getMapByKey` and `bookmarkAdd`: these are network calls. They are function parameters, and the call sequence records what is sent to them.
- Favorites.SyncFavorites: neither `getMapByKey` nor `bookmarkAdd` can reject in the model. In script.ts:135 and script.ts:140 neither `await` is guarded, so a rejected call ends `main` and leaves every later favourite unprocessed; the model does not capture that early end.
- Favorites.AddIssuedIff and Favorites.RepeatedFavoriteAddedTwice: `getMapByKey` is a fixed function of the key, so a key looked up twice in one run is assumed to get the same answer both times. `bookmarkAdd`, by contrast, is given the whole call history.
- Console output, including the message at script.ts:149 that says "found" for a map that was not found: it has no effect on state.
- `async`/`await`: the calls are awaited one at a time, so the model is sequential.
- `for..in` ordering: index keys are folder paths, never integer-like, so insertion order applies and the index is a sequence in that order.
- `replace` replacement patterns (`$&` and so on): the replacement is always `""`.
- Strings are sequences of `char`, taken as UTF-16 code units. There is no encoding or normalisation.
- bookmark_by_song_id.ts and list_bookmarks.ts are not part of this model.

## Findings

| source | as written | input that shows it | evidently intended | confidence | as-written member | corrected member |
|---|---|---|---|---|---|---|
| script.ts:56-57 | when `CustomLevels\` is missing, `indexOf` gives -1 and the scan starts at offset 12 of an unrelated key | `abcdefghijklmn o` gives `mn` | such a key holds no map key | not executed | MapKeys.AsWrittenMissingDelimiter | MapKeys.ExtractBeastSaberMapKey |
| script.ts:59-63 | the `while (char !== ' ')` loop has no bound; past the end `charAt` gives `""`, which is never `' '` | `CustomLevels\abc` never stops | the scan stops at the end of the key and reports no map key | not executed | MapKeys.AsWrittenNoSpaceDiverges | MapKeys.ExtractBeastSaberMapKey |
