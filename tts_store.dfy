/** The text-to-speech settings store. */
module TtsStore {
  import opened Wrappers

  datatype TtsSettings = TtsSettings(voice: string, rate: real)

  const Defaults := TtsSettings("Aaron", 1.0)

  /** What local storage yields under "tts-settings": nothing (or an empty
      string), something that throws when read or parsed, or a parsed object
      with possibly missing fields. */
  datatype Stored = Missing | Broken | Parsed(voice: Option<string>, rate: Option<real>)

  /** `loadSettings()`: the stored fields laid over the defaults. */
  function LoadSettings(stored: Stored): (r: TtsSettings)
    ensures stored.Parsed? && stored.voice.Some? ==> r.voice == stored.voice.value
    ensures stored.Parsed? && stored.rate.Some? ==> r.rate == stored.rate.value
    ensures !(stored.Parsed? && stored.voice.Some?) ==> r.voice == "Aaron"
    ensures !(stored.Parsed? && stored.rate.Some?) ==> r.rate == 1.0
  {
    match stored
    case Parsed(v, rt) =>
      TtsSettings(if v.Some? then v.value else Defaults.voice, if rt.Some? then rt.value else Defaults.rate)
    case _ => Defaults
  }

  function SetVoice(s: TtsSettings, voice: string): (r: TtsSettings)
    ensures r.voice == voice && r.rate == s.rate
  {
    s.(voice := voice)
  }

  function SetRate(s: TtsSettings, rate: real): (r: TtsSettings)
    ensures r.rate == rate && r.voice == s.voice
  {
    s.(rate := rate)
  }

  /** Saving and loading the settings gives them back. */
  lemma LoadSaved(s: TtsSettings)
    ensures LoadSettings(Parsed(Some(s.voice), Some(s.rate))) == s
  {
  }
}
