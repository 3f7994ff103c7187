/** Remembered scroll positions, one per page key. */
module UiSlice {

  datatype UiState = UiState(scrollPositions: map<string, real>)

  function InitialState(): (s: UiState)
    ensures s.scrollPositions == map[]
  {
    UiState(map[])
  }

  /** `saveScrollPosition`: the key now holds the position; every other key is as it was. */
  function SaveScrollPosition(s: UiState, key: string, position: real): (r: UiState)
    ensures key in r.scrollPositions && r.scrollPositions[key] == position
    ensures forall k :: k != key ==> (k in r.scrollPositions <==> k in s.scrollPositions)
    ensures forall k :: k != key && k in s.scrollPositions ==> r.scrollPositions[k] == s.scrollPositions[k]
  {
    UiState(s.scrollPositions[key := position])
  }

  /** `clearScrollPositions`. */
  function ClearScrollPositions(s: UiState): (r: UiState)
    ensures |r.scrollPositions| == 0
  {
    UiState(map[])
  }

  /** Saving the same key twice keeps only the last position. */
  lemma LastSaveWins(s: UiState, key: string, first: real, second: real)
    ensures SaveScrollPosition(SaveScrollPosition(s, key, first), key, second) == SaveScrollPosition(s, key, second)
  {
  }

  /** Saves under different keys do not interfere: their order does not matter. */
  lemma SavesCommute(s: UiState, k1: string, p1: real, k2: string, p2: real)
    requires k1 != k2
    ensures SaveScrollPosition(SaveScrollPosition(s, k1, p1), k2, p2) == SaveScrollPosition(SaveScrollPosition(s, k2, p2), k1, p1)
  {
  }
}
