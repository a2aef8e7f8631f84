/** The audio settings store: two switches and two volumes in [0, 1]. */
module AudioStore {

  datatype AudioState = AudioState(
    backgroundMusicEnabled: bool,
    soundEffectsEnabled: bool,
    backgroundMusicVolume: real,
    soundEffectsVolume: real)

  const Defaults := AudioState(true, true, 0.3, 0.6)

  /** What local storage holds under "audioSettings": nothing (or an empty
      string), text that does not parse, or a parsed settings record. */
  datatype Saved = NotSaved | Unparsable | Parsed(state: AudioState)

  /** `loadAudioSettings()`: the parsed record when there is one, else the
      defaults. */
  function Load(saved: Saved): (r: AudioState)
    ensures saved.Parsed? ==> r == saved.state
    ensures !saved.Parsed? ==> r.backgroundMusicEnabled && r.soundEffectsEnabled
    ensures !saved.Parsed? ==> r.backgroundMusicVolume == 0.3 && r.soundEffectsVolume == 0.6
  {
    if saved.Parsed? then saved.state else Defaults
  }

  /** `Math.max(0, Math.min(1, v))` */
  function Clamp(v: real): (r: real)
    ensures 0.0 <= r <= 1.0
    ensures 0.0 <= v <= 1.0 ==> r == v
    ensures v < 0.0 ==> r == 0.0
    ensures v > 1.0 ==> r == 1.0
  {
    if v < 0.0 then 0.0 else if v > 1.0 then 1.0 else v
  }

  function ToggleBackgroundMusic(s: AudioState): (r: AudioState)
    ensures r.backgroundMusicEnabled == !s.backgroundMusicEnabled
    ensures r.soundEffectsEnabled == s.soundEffectsEnabled
    ensures r.backgroundMusicVolume == s.backgroundMusicVolume && r.soundEffectsVolume == s.soundEffectsVolume
  {
    s.(backgroundMusicEnabled := !s.backgroundMusicEnabled)
  }

  function ToggleSoundEffects(s: AudioState): (r: AudioState)
    ensures r.soundEffectsEnabled == !s.soundEffectsEnabled
    ensures r.backgroundMusicEnabled == s.backgroundMusicEnabled
    ensures r.backgroundMusicVolume == s.backgroundMusicVolume && r.soundEffectsVolume == s.soundEffectsVolume
  {
    s.(soundEffectsEnabled := !s.soundEffectsEnabled)
  }

  function SetBackgroundMusicVolume(s: AudioState, volume: real): (r: AudioState)
    ensures 0.0 <= r.backgroundMusicVolume <= 1.0
    ensures 0.0 <= volume <= 1.0 ==> r.backgroundMusicVolume == volume
    ensures r.soundEffectsVolume == s.soundEffectsVolume
    ensures r.backgroundMusicEnabled == s.backgroundMusicEnabled && r.soundEffectsEnabled == s.soundEffectsEnabled
  {
    s.(backgroundMusicVolume := Clamp(volume))
  }

  function SetSoundEffectsVolume(s: AudioState, volume: real): (r: AudioState)
    ensures 0.0 <= r.soundEffectsVolume <= 1.0
    ensures 0.0 <= volume <= 1.0 ==> r.soundEffectsVolume == volume
    ensures r.backgroundMusicVolume == s.backgroundMusicVolume
    ensures r.backgroundMusicEnabled == s.backgroundMusicEnabled && r.soundEffectsEnabled == s.soundEffectsEnabled
  {
    s.(soundEffectsVolume := Clamp(volume))
  }

  /** Each toggle undoes itself. */
  lemma TogglesAreInvolutions(s: AudioState)
    ensures ToggleBackgroundMusic(ToggleBackgroundMusic(s)) == s
    ensures ToggleSoundEffects(ToggleSoundEffects(s)) == s
  {
  }

  /** Setting a volume twice keeps only the second value. */
  lemma VolumeSettersOverwrite(s: AudioState, v1: real, v2: real)
    ensures SetBackgroundMusicVolume(SetBackgroundMusicVolume(s, v1), v2) == SetBackgroundMusicVolume(s, v2)
    ensures SetSoundEffectsVolume(SetSoundEffectsVolume(s, v1), v2) == SetSoundEffectsVolume(s, v2)
  {
  }
}
