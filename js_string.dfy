/** The JavaScript String built-ins that the bookmark script relies on,
    modelled on Dafny strings (sequences of UTF-16 code units are taken to be
    sequences of `char`). Only the behaviour the script can reach is modelled:
    `indexOf` with a string pattern, `replace` with a string pattern and a
    literal replacement, and `charAt`. */
module JsString {

  /** `pat` occurs in `s` starting at position `i`. */
  predicate OccursAt(s: string, pat: string, i: int) {
    0 <= i && i + |pat| <= |s| && s[i..i + |pat|] == pat
  }

  /** `s.indexOf(pat, from)`: the first position at or after `from` where
      `pat` occurs, or -1 when there is none. */
  function IndexFrom(s: string, pat: string, from: nat): (r: int)
    requires from <= |s|
    ensures r == -1 || (from <= r && OccursAt(s, pat, r))
    ensures r == -1 ==> forall j :: from <= j ==> !OccursAt(s, pat, j)
    ensures r != -1 ==> forall j :: from <= j < r ==> !OccursAt(s, pat, j)
    decreases |s| - from
  {
    if from + |pat| > |s| then -1
    else if s[from..from + |pat|] == pat then from
    else IndexFrom(s, pat, from + 1)
  }

  /** `s.indexOf(pat)`: the first occurrence of `pat` in `s`, or -1. */
  function IndexOf(s: string, pat: string): (r: int)
    ensures r == -1 <==> forall j :: !OccursAt(s, pat, j)
    ensures r != -1 ==> OccursAt(s, pat, r) && forall j :: j < r ==> !OccursAt(s, pat, j)
  {
    IndexFrom(s, pat, 0)
  }

  /** `s.replace(pat, rep)` with a string pattern: only the FIRST occurrence of
      `pat` is replaced, wherever it stands; without an occurrence `s` is
      returned unchanged. (`rep` is taken literally; the script passes "",
      which holds no `$` replacement pattern.) */
  function ReplaceFirst(s: string, pat: string, rep: string): (r: string)
    ensures (forall j :: !OccursAt(s, pat, j)) ==> r == s
    ensures forall i :: OccursAt(s, pat, i) && (forall j :: j < i ==> !OccursAt(s, pat, j))
                        ==> r == s[..i] + rep + s[i + |pat|..]
  {
    var i := IndexOf(s, pat);
    if i == -1 then s else s[..i] + rep + s[i + |pat|..]
  }

  /** `s.charAt(i)`: the one-character string at `i`, or the empty string
      when `i` is out of range. */
  function CharAt(s: string, i: int): (r: string)
    ensures |r| <= 1
    ensures r == "" <==> !(0 <= i < |s|)
    ensures 0 <= i < |s| ==> r == [s[i]]
  {
    if 0 <= i < |s| then [s[i]] else ""
  }

  /** The first occurrence found in `head` is still the first one once more
      text is appended. */
  lemma IndexOfExtend(head: string, tail: string, pat: string)
    requires IndexOf(head, pat) != -1
    ensures IndexOf(head + tail, pat) == IndexOf(head, pat)
  {
    var i := IndexOf(head, pat);
    var s := head + tail;
    assert s[i..i + |pat|] == head[i..i + |pat|];
    assert OccursAt(s, pat, i);
    var r := IndexOf(s, pat);
    if r < i {
      assert s[r..r + |pat|] == head[r..r + |pat|];
      assert OccursAt(head, pat, r);
    }
  }
}
