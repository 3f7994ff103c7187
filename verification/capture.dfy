/** The one regular-expression shape the code base uses to pull a video id out of a URL:
    `/(?:m1|m2|...)([^X]+)/` applied with `String.prototype.match`, where the markers are
    literal text and `X` is a set of stop characters. The match is unanchored: the engine
    tries each start position from the left, each alternative in order, and the capture
    group is greedy and needs at least one character. */
module Capture {
  import opened Wrappers

  /** Marker `m` occurs in `s` at `i` and is followed by a character `stop` does not exclude. */
  predicate MarkerAt(s: string, i: nat, m: string, stop: char -> bool) {
    i + |m| < |s| && s[i..i + |m|] == m && !stop(s[i + |m|])
  }

  /** The first alternative (from `k` on) that matches at `i`, or `|markers|` when none does. */
  function FirstAlt(s: string, i: nat, markers: seq<string>, stop: char -> bool, k: nat): (r: nat)
    requires k <= |markers|
    ensures k <= r <= |markers|
    ensures r < |markers| ==> MarkerAt(s, i, markers[r], stop)
    ensures forall j :: k <= j < r ==> !MarkerAt(s, i, markers[j], stop)
    decreases |markers| - k
  {
    if k == |markers| || MarkerAt(s, i, markers[k], stop) then k
    else FirstAlt(s, i, markers, stop, k + 1)
  }

  /** Some alternative matches at position `i`. */
  predicate MatchAt(s: string, i: nat, markers: seq<string>, stop: char -> bool) {
    FirstAlt(s, i, markers, stop, 0) < |markers|
  }

  /** The maximal run of characters not excluded by `stop`, starting at `j`. */
  function RunFrom(s: string, j: nat, stop: char -> bool): (r: string)
    requires j <= |s|
    ensures j + |r| <= |s| && r == s[j..j + |r|]
    ensures forall k :: 0 <= k < |r| ==> !stop(r[k])
    ensures j + |r| == |s| || stop(s[j + |r|])
    decreases |s| - j
  {
    if j == |s| || stop(s[j]) then "" else [s[j]] + RunFrom(s, j + 1, stop)
  }

  /** The capture group of a match at `i`: the greedy run right after the marker. */
  function CaptureAt(s: string, i: nat, markers: seq<string>, stop: char -> bool): (r: string)
    requires MatchAt(s, i, markers, stop)
    ensures |r| > 0
  {
    var m := markers[FirstAlt(s, i, markers, stop, 0)];
    RunFrom(s, i + |m|, stop)
  }

  /** No match can start at or beyond the end of `s`. */
  lemma NoMatchPastEnd(s: string, i: nat, markers: seq<string>, stop: char -> bool)
    requires i >= |s|
    ensures !MatchAt(s, i, markers, stop)
  {
  }

  /** The capture of the leftmost match starting at or after `from`. */
  function MatchFrom(s: string, markers: seq<string>, stop: char -> bool, from: nat): (r: Option<string>)
    ensures r.Some? ==> exists i :: from <= i && MatchAt(s, i, markers, stop)
                          && (forall j :: from <= j < i ==> !MatchAt(s, j, markers, stop))
                          && r.value == CaptureAt(s, i, markers, stop)
    ensures r.None? <==> forall i :: from <= i ==> !MatchAt(s, i, markers, stop)
    decreases |s| - from
  {
    if from >= |s| then
      assert forall i :: from <= i ==> !MatchAt(s, i, markers, stop) by {
        forall i | from <= i { NoMatchPastEnd(s, i, markers, stop); }
      }
      None
    else if MatchAt(s, from, markers, stop) then Some(CaptureAt(s, from, markers, stop))
    else
      var r := MatchFrom(s, markers, stop, from + 1);
      assert forall i :: from <= i ==> (!MatchAt(s, i, markers, stop) <==> (i == from || !MatchAt(s, i, markers, stop)));
      r
  }

  /** `s.match(/(?:markers)([^stop]+)/)?.[1]`: the capture group of the leftmost match. */
  function Match(s: string, markers: seq<string>, stop: char -> bool): (r: Option<string>)
    ensures r.Some? ==> exists i: nat :: MatchAt(s, i, markers, stop)
                          && (forall j: nat :: j < i ==> !MatchAt(s, j, markers, stop))
                          && r.value == CaptureAt(s, i, markers, stop)
    ensures r.None? <==> forall i: nat :: !MatchAt(s, i, markers, stop)
  {
    MatchFrom(s, markers, stop, 0)
  }

  /** The match is determined by its leftmost position. */
  lemma MatchIsLeftmost(s: string, i: nat, markers: seq<string>, stop: char -> bool)
    requires MatchAt(s, i, markers, stop)
    requires forall j: nat :: j < i ==> !MatchAt(s, j, markers, stop)
    ensures Match(s, markers, stop) == Some(CaptureAt(s, i, markers, stop))
  {
    var r := Match(s, markers, stop);
    assert r.Some?;
    var i': nat :| MatchAt(s, i', markers, stop) && (forall j: nat :: j < i' ==> !MatchAt(s, j, markers, stop))
              && r.value == CaptureAt(s, i', markers, stop);
    assert i' == i;
  }

  /** `c` starts none of the (non-empty) markers. */
  predicate Foreign(c: char, markers: seq<string>) {
    forall t :: 0 <= t < |markers| ==> |markers[t]| > 0 && c != markers[t][0]
  }

  /** A position holding a character that starts no marker starts no match. */
  lemma NoMatchAtForeignChar(s: string, j: nat, markers: seq<string>, stop: char -> bool)
    requires j < |s| && Foreign(s[j], markers)
    ensures !MatchAt(s, j, markers, stop)
  {
  }

  /** The greedy run over a tail free of stop characters is the whole tail. */
  lemma RunToEnd(s: string, j: nat, stop: char -> bool)
    requires j <= |s|
    requires forall k :: j <= k < |s| ==> !stop(s[k])
    ensures RunFrom(s, j, stop) == s[j..]
  {
  }

  /** No match starts inside a prefix none of whose characters starts a marker. */
  lemma PrefixBlocks(s: string, n: nat, markers: seq<string>, stop: char -> bool)
    requires n <= |s|
    requires forall k :: 0 <= k < n ==> Foreign(s[k], markers)
    ensures forall j: nat :: j < n ==> !MatchAt(s, j, markers, stop)
  {
    forall j: nat | j < n
      ensures !MatchAt(s, j, markers, stop)
    {
      NoMatchAtForeignChar(s, j, markers, stop);
    }
  }

  /** The first alternative followed by a stop-free tail matches, capturing the tail. */
  lemma FirstMarkerThenTail(s: string, i: nat, markers: seq<string>, stop: char -> bool)
    requires |markers| > 0
    requires i + |markers[0]| < |s| && s[i..i + |markers[0]|] == markers[0]
    requires forall k :: i + |markers[0]| <= k < |s| ==> !stop(s[k])
    ensures MatchAt(s, i, markers, stop)
    ensures CaptureAt(s, i, markers, stop) == s[i + |markers[0]|..]
  {
    assert FirstAlt(s, i, markers, stop, 0) == 0;
    RunToEnd(s, i + |markers[0]|, stop);
  }

  /** When `s` is `prefix + m + key`, no marker starts with a character of `prefix`,
      `m` is the first alternative, and `key` is non-empty and free of stop characters,
      the match yields exactly `key`. */
  lemma MatchAfterPrefix(prefix: string, m: string, key: string, markers: seq<string>, stop: char -> bool)
    requires |markers| > 0 && markers[0] == m
    requires forall k :: 0 <= k < |prefix| ==> Foreign(prefix[k], markers)
    requires |key| > 0 && forall k :: 0 <= k < |key| ==> !stop(key[k])
    ensures Match(prefix + m + key, markers, stop) == Some(key)
  {
    var s := prefix + m + key;
    var i := |prefix|;
    assert forall k :: 0 <= k < i ==> s[k] == prefix[k];
    PrefixBlocks(s, i, markers, stop);
    assert s[i..i + |m|] == m;
    assert s[i + |m|..] == key;
    FirstMarkerThenTail(s, i, markers, stop);
    MatchIsLeftmost(s, i, markers, stop);
  }

  /** The same for a later alternative `markers[t]`, provided no earlier alternative matches
      where it begins. */
  lemma MatchAfterPrefixAlt(prefix: string, key: string, markers: seq<string>, t: nat, stop: char -> bool)
    requires t < |markers|
    requires forall k :: 0 <= k < |prefix| ==> Foreign(prefix[k], markers)
    requires forall u :: 0 <= u < t ==> !MarkerAt(prefix + markers[t] + key, |prefix|, markers[u], stop)
    requires |key| > 0 && forall k :: 0 <= k < |key| ==> !stop(key[k])
    ensures Match(prefix + markers[t] + key, markers, stop) == Some(key)
  {
    var m := markers[t];
    var s := prefix + m + key;
    var i := |prefix|;
    assert forall k :: 0 <= k < i ==> s[k] == prefix[k];
    PrefixBlocks(s, i, markers, stop);
    assert s[i..i + |m|] == m;
    assert s[i + |m|..] == key;
    AltThenTail(s, i, markers, stop, t);
    MatchIsLeftmost(s, i, markers, stop);
  }

  /** Alternative `t` followed by a stop-free tail, with no earlier alternative matching at `i`,
      matches there and captures the tail. */
  lemma AltThenTail(s: string, i: nat, markers: seq<string>, stop: char -> bool, t: nat)
    requires t < |markers|
    requires i + |markers[t]| < |s| && s[i..i + |markers[t]|] == markers[t]
    requires forall k :: i + |markers[t]| <= k < |s| ==> !stop(s[k])
    requires forall u :: 0 <= u < t ==> !MarkerAt(s, i, markers[u], stop)
    ensures MatchAt(s, i, markers, stop)
    ensures CaptureAt(s, i, markers, stop) == s[i + |markers[t]|..]
  {
    assert MarkerAt(s, i, markers[t], stop);
    assert FirstAlt(s, i, markers, stop, 0) == t;
    RunToEnd(s, i + |markers[t]|, stop);
  }
}
