/** The flashcard settings store. */
module FlashcardStore {

  datatype Side = Front | Back

  datatype FlashcardSettings = FlashcardSettings(initialSide: Side, soundEnabled: bool)

  const Defaults := FlashcardSettings(Front, true)

  function ToggleInitialSide(s: FlashcardSettings): (r: FlashcardSettings)
    ensures r.initialSide != s.initialSide
    ensures r.soundEnabled == s.soundEnabled
  {
    s.(initialSide := if s.initialSide == Front then Back else Front)
  }

  function ToggleSound(s: FlashcardSettings): (r: FlashcardSettings)
    ensures r.soundEnabled == !s.soundEnabled
    ensures r.initialSide == s.initialSide
  {
    s.(soundEnabled := !s.soundEnabled)
  }

  lemma TogglesAreInvolutions(s: FlashcardSettings)
    ensures ToggleInitialSide(ToggleInitialSide(s)) == s
    ensures ToggleSound(ToggleSound(s)) == s
  {
  }

  /** The two toggles act on different fields, so their order does not matter. */
  lemma TogglesCommute(s: FlashcardSettings)
    ensures ToggleSound(ToggleInitialSide(s)) == ToggleInitialSide(ToggleSound(s))
  {
  }
}
