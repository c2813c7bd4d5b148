/** The three helpers of the bookmark script that turn a favourite level id
    into a lookup key for the bookmark service: `beatSaverMapID`,
    `extractBeastSaberMapKey` and `beastSaberMapKey`.

    The song-hash index (SongCore's SongHashData) is a JSON object whose keys
    are level folder paths and whose values carry a `songHash`; it is modelled
    as the sequence of its (key, songHash) pairs in `for..in` iteration order. */
module MapKeys {
  import opened JsString

  datatype Option<T> = None | Some(value: T)

  /** One entry of the song-hash index. */
  datatype IndexEntry = IndexEntry(key: string, songHash: string)

  /** What the source's unbounded scan does: return a string, or never stop. */
  datatype Scan = Returns(value: string) | Diverges

  /** The prefix a favourite level id carries in the player data. */
  const LevelPrefix: string := "custom_level_"

  /** The folder delimiter searched for in an index key: "CustomLevels\". */
  const Delimiter: string := "CustomLevels\\"

  /** The sentinel `beastSaberMapKey` returns when it finds nothing. */
  const NotFound: string := "Not Found"

  // ---------------------------------------------------------------------------
  // beatSaverMapID
  // ---------------------------------------------------------------------------

  /** `beatSaverMapID`: deletes the first occurrence of "custom_level_". */
  function BeatSaverMapId(mapId: string): (r: string)
    ensures (forall j :: !OccursAt(mapId, LevelPrefix, j)) ==> r == mapId
    ensures forall i :: OccursAt(mapId, LevelPrefix, i) && (forall j :: j < i ==> !OccursAt(mapId, LevelPrefix, j))
                        ==> r == mapId[..i] + mapId[i + |LevelPrefix|..]
  {
    ReplaceFirst(mapId, LevelPrefix, "")
  }

  /** A level id made of the prefix and a hash normalises to the hash. */
  lemma StripsLevelPrefix(hash: string)
    ensures BeatSaverMapId(LevelPrefix + hash) == hash
  {
    var id := LevelPrefix + hash;
    assert id[..|LevelPrefix|] == LevelPrefix;
    assert OccursAt(id, LevelPrefix, 0);
    assert id[|LevelPrefix|..] == hash;
  }

  /** The deletion is not anchored at the start: an occurrence anywhere in
      the id is removed. */
  lemma RemovesInnerOccurrence()
    ensures BeatSaverMapId("x" + LevelPrefix + "h") == "xh"
  {
    var id := "x" + LevelPrefix + "h";
    assert !OccursAt(id, LevelPrefix, 0) by { assert id[0] != LevelPrefix[0]; }
    assert id[1..1 + |LevelPrefix|] == LevelPrefix;
    assert forall j :: j < 1 ==> !OccursAt(id, LevelPrefix, j);
    assert id[..1] + id[1 + |LevelPrefix|..] == "xh";
  }

  /** Only one occurrence is deleted: a doubled prefix leaves one behind. */
  lemma RemovesOnlyFirstOccurrence()
    ensures BeatSaverMapId(LevelPrefix + LevelPrefix) == LevelPrefix
  {
    StripsLevelPrefix(LevelPrefix);
  }

  /** The id is left alone exactly when the prefix occurs nowhere in it, and
      any change shortens it by exactly the prefix length. */
  lemma BeatSaverMapIdUnchangedIff(mapId: string)
    ensures BeatSaverMapId(mapId) == mapId <==> forall j :: !OccursAt(mapId, LevelPrefix, j)
    ensures BeatSaverMapId(mapId) != mapId ==> |BeatSaverMapId(mapId)| == |mapId| - |LevelPrefix|
  {
    var i := IndexOf(mapId, LevelPrefix);
    if i != -1 {
      assert |mapId[..i] + mapId[i + |LevelPrefix|..]| == |mapId| - |LevelPrefix|;
    }
  }

  // ---------------------------------------------------------------------------
  // extractBeastSaberMapKey
  // ---------------------------------------------------------------------------

  /** The position of the first space at or after `from`, if any. */
  function FirstSpaceFrom(s: string, from: nat): (r: Option<nat>)
    ensures r.Some? ==> from <= r.value < |s| && s[r.value] == ' '
    ensures r.Some? ==> forall j :: from <= j < r.value ==> s[j] != ' '
    ensures r.None? ==> forall j :: from <= j < |s| ==> s[j] != ' '
    decreases |s| - from
  {
    if from >= |s| then None
    else if s[from] == ' ' then Some(from)
    else FirstSpaceFrom(s, from + 1)
  }

  /** Where the source starts its scan: just after the first delimiter, or at
      `-1 + 13 = 12` when the delimiter is missing. */
  function ScanStart(key: string): (r: nat)
    ensures r >= |Delimiter| - 1
    ensures r == |Delimiter| - 1 <==> forall j :: !OccursAt(key, Delimiter, j)
  {
    IndexOf(key, Delimiter) + |Delimiter|
  }

  /** `extractBeastSaberMapKey` as the source has it. Past the end of the key
      `charAt` yields "", which is never " ", so the `while` loop stops
      exactly when a space exists at or after the scan start; otherwise it
      runs forever. The returned `substring(start, end)` has both bounds in
      range, so it is the slice `key[start..end]`. */
  function ExtractAsWritten(key: string): (r: Scan)
    ensures r.Diverges? <==> forall j :: ScanStart(key) <= j < |key| ==> key[j] != ' '
    ensures r.Returns? ==> ' ' !in r.value
  {
    var start := ScanStart(key);
    match FirstSpaceFrom(key, start)
    case None => Diverges
    case Some(end) => Returns(key[start..end])
  }

  /** The lookup key held in an index key: the text from just after the first
      "CustomLevels\" up to, not including, the first space after it. There is
      none when the delimiter is missing or no space follows it. */
  function ExtractedKey(key: string): (r: Option<string>)
    ensures r.Some? <==> IndexOf(key, Delimiter) != -1 &&
                         exists j :: ScanStart(key) <= j < |key| && key[j] == ' '
    ensures r.Some? ==> var start := ScanStart(key);
                        start + |r.value| < |key| &&
                        key[start..start + |r.value|] == r.value &&
                        key[start + |r.value|] == ' '
    ensures r.Some? ==> ' ' !in r.value
  {
    if IndexOf(key, Delimiter) == -1 then None
    else
      var start := ScanStart(key);
      match FirstSpaceFrom(key, start)
      case None => None
      case Some(end) => Some(key[start..end])
  }

  /** `extractBeastSaberMapKey` with a bounds-checked scan: the same
      character loop as the source, which also stops at the end of the key,
      and a missing delimiter reported as no key. */
  method ExtractBeastSaberMapKey(songHashDataKey: string) returns (r: Option<string>)
    ensures r == ExtractedKey(songHashDataKey)
  {
    var found := IndexOf(songHashDataKey, Delimiter);
    if found == -1 {
      return None;
    }
    var startIndex := found + |Delimiter|;
    var endIndex := startIndex;
    var ch := CharAt(songHashDataKey, endIndex);
    while endIndex < |songHashDataKey| && ch != " "
      invariant startIndex <= endIndex <= |songHashDataKey|
      invariant ch == CharAt(songHashDataKey, endIndex)
      invariant forall j :: startIndex <= j < endIndex ==> songHashDataKey[j] != ' '
      decreases |songHashDataKey| - endIndex
    {
      endIndex := endIndex + 1;
      ch := CharAt(songHashDataKey, endIndex);
    }
    if ch != " " {
      return None;
    }
    return Some(songHashDataKey[startIndex..endIndex]);
  }

  /** Wherever the source's scan is well defined (the delimiter is there and a
      space follows it), the bounds-checked extraction returns what it does. */
  lemma ExtractedKeyAgreesWithSource(key: string)
    requires IndexOf(key, Delimiter) != -1
    ensures ExtractAsWritten(key).Returns? <==> ExtractedKey(key).Some?
    ensures ExtractAsWritten(key).Returns? ==> ExtractAsWritten(key).value == ExtractedKey(key).value
  {
  }

  /** A space right after a run of non-space text is the first one there. */
  lemma FirstSpaceAfterWord(s: string, from: nat, word: string)
    requires from + |word| < |s| && s[from..from + |word|] == word
    requires ' ' !in word && s[from + |word|] == ' '
    ensures FirstSpaceFrom(s, from) == Some(from + |word|)
  {
    forall j | from <= j < from + |word| ensures s[j] != ' ' {
      assert s[j] == word[j - from];
    }
  }

  /** An index key shaped like a SongCore folder path, `<dirs>CustomLevels\<key> <rest>`,
      whose first delimiter is the one after `<dirs>`, yields `<key>`. */
  lemma ExtractedKeyOfFolder(dirs: string, mapKey: string, rest: string)
    requires IndexOf(dirs + Delimiter, Delimiter) == |dirs|
    requires ' ' !in mapKey
    ensures ExtractedKey(dirs + Delimiter + mapKey + " " + rest) == Some(mapKey)
  {
    var head := dirs + Delimiter;
    var tail := mapKey + " " + rest;
    var key := head + tail;
    assert key == dirs + Delimiter + mapKey + " " + rest;
    IndexOfExtend(head, tail, Delimiter);
    var start := |head|;
    assert ScanStart(key) == start;
    assert key[start..start + |mapKey|] == tail[..|mapKey|] == mapKey;
    assert key[start + |mapKey|] == tail[|mapKey|] == ' ';
    FirstSpaceAfterWord(key, start, mapKey);
    assert ExtractedKey(key) == Some(key[start..start + |mapKey|]);
  }

  /** The worked example "X\CustomLevels\1abc (Title - Author)\foo" holds
      the lookup key "1abc". */
  lemma ExtractedKeyExample()
    ensures ExtractedKey("X\\" + Delimiter + "1abc" + " " + "(Title - Author)\\foo") == Some("1abc")
  {
    var head := "X\\" + Delimiter;
    assert !OccursAt(head, Delimiter, 0) by { assert head[0..|Delimiter|][0] != Delimiter[0]; }
    assert !OccursAt(head, Delimiter, 1) by { assert head[1..1 + |Delimiter|][0] != Delimiter[0]; }
    assert OccursAt(head, Delimiter, 2) by { assert head[2..2 + |Delimiter|] == Delimiter; }
    assert forall j :: j < 2 ==> !OccursAt(head, Delimiter, j);
    ExtractedKeyOfFolder("X\\", "1abc", "(Title - Author)\\foo");
  }

  /** Missing delimiter, as written: the scan starts at offset 12 and returns
      whatever lies between there and the next space. */
  lemma AsWrittenMissingDelimiter()
    ensures ExtractAsWritten("abcdefghijklmn o") == Returns("mn")
    ensures ExtractedKey("abcdefghijklmn o") == None
  {
    var key := "abcdefghijklmn o";
    forall j | 0 <= j <= 3 ensures !OccursAt(key, Delimiter, j) {
      assert key[j] != Delimiter[0];
    }
    assert IndexOf(key, Delimiter) == -1;
    assert FirstSpaceFrom(key, 12) == Some(14);
    assert key[12..14] == "mn";
  }

  /** No space after the delimiter, as written: the scan never stops. */
  lemma AsWrittenNoSpaceDiverges()
    ensures ExtractAsWritten("CustomLevels\\abc") == Diverges
    ensures ExtractedKey("CustomLevels\\abc") == None
  {
    var key := "CustomLevels\\abc";
    assert OccursAt(key, Delimiter, 0) by { assert key[..|Delimiter|] == Delimiter; }
    assert IndexOf(key, Delimiter) == 0;
  }

  /** "Not Found" holds a space and an extracted key never does, so the
      sentinel cannot be mistaken for a key. */
  lemma SentinelUnambiguous(key: string)
    ensures ExtractedKey(key) != Some(NotFound)
  {
    assert NotFound[3] == ' ';
  }

  // ---------------------------------------------------------------------------
  // beastSaberMapKey
  // ---------------------------------------------------------------------------

  /** The position of the first index entry whose `songHash` is `hash`. */
  function FirstMatch(index: seq<IndexEntry>, hash: string): (r: Option<nat>)
    ensures r.Some? ==> r.value < |index| && index[r.value].songHash == hash
    ensures r.Some? ==> forall j :: 0 <= j < r.value ==> index[j].songHash != hash
    ensures r.None? ==> forall j :: 0 <= j < |index| ==> index[j].songHash != hash
  {
    if |index| == 0 then None
    else if index[0].songHash == hash then Some(0)
    else match FirstMatch(index[1..], hash)
      case None => None
      case Some(j) => Some(j + 1)
  }

  /** What `beastSaberMapKey` answers: the key extracted from the first entry
      whose `songHash` matches, or "Not Found". */
  function KeyFor(index: seq<IndexEntry>, hash: string): string
  {
    match FirstMatch(index, hash)
    case None => NotFound
    case Some(i) =>
      match ExtractedKey(index[i].key)
      case None => NotFound
      case Some(k) => k
  }

  /** `beastSaberMapKey`: a linear search over the index in iteration order
      that returns at the first entry whose `songHash` equals `beatSaverMapId`. */
  method BeastSaberMapKey(songHashData: seq<IndexEntry>, beatSaverMapId: string) returns (r: string)
    ensures r == KeyFor(songHashData, beatSaverMapId)
  {
    for i := 0 to |songHashData|
      invariant forall j :: 0 <= j < i ==> songHashData[j].songHash != beatSaverMapId
    {
      if songHashData[i].songHash == beatSaverMapId {
        var key := ExtractBeastSaberMapKey(songHashData[i].key);
        assert FirstMatch(songHashData, beatSaverMapId) == Some(i);
        match key
        case None => return NotFound;
        case Some(k) => return k;
      }
    }
    return NotFound;
  }

  /** The sentinel comes back exactly when no entry matches or the first
      matching entry's key holds no extractable lookup key. */
  lemma KeyForNotFoundIff(index: seq<IndexEntry>, hash: string)
    ensures KeyFor(index, hash) == NotFound <==>
            (forall j :: 0 <= j < |index| ==> index[j].songHash != hash) ||
            ExtractedKey(index[FirstMatch(index, hash).value].key).None?
  {
    match FirstMatch(index, hash)
    case None =>
    case Some(i) => SentinelUnambiguous(index[i].key);
  }

  /** The first matching entry decides the answer. */
  lemma KeyForFirstMatch(index: seq<IndexEntry>, hash: string, i: nat)
    requires i < |index| && index[i].songHash == hash
    requires forall j :: 0 <= j < i ==> index[j].songHash != hash
    ensures ExtractedKey(index[i].key).Some? ==> KeyFor(index, hash) == ExtractedKey(index[i].key).value
    ensures ExtractedKey(index[i].key).None? ==> KeyFor(index, hash) == NotFound
  {
  }

  /** Entries after a match are never consulted. */
  lemma {:induction false} FirstMatchIgnoresLater(index: seq<IndexEntry>, rest: seq<IndexEntry>, hash: string)
    requires FirstMatch(index, hash).Some?
    ensures FirstMatch(index + rest, hash) == FirstMatch(index, hash)
  {
    if index[0].songHash != hash {
      assert (index + rest)[1..] == index[1..] + rest;
      FirstMatchIgnoresLater(index[1..], rest, hash);
    }
  }

  /** Appending entries after a matching one does not change the answer. */
  lemma KeyForIgnoresLater(index: seq<IndexEntry>, rest: seq<IndexEntry>, hash: string)
    requires exists j :: 0 <= j < |index| && index[j].songHash == hash
    ensures KeyFor(index + rest, hash) == KeyFor(index, hash)
  {
    FirstMatchIgnoresLater(index, rest, hash);
    var i := FirstMatch(index, hash).value;
    assert (index + rest)[i] == index[i];
  }
}
