/** The fixed values of constants.ts: the option lists, the defaults and the
    upload size limit. */
module Constants {
  import opened Types

  /** One `{ value, label }` (the label is kept as `caption`) entry of a drop-down list. */
  datatype Choice = Choice(value: string, caption: string)

  const LANGUAGES: seq<Choice> := [
    Choice("en-US", "English (US)"),
    Choice("en-GB", "English (UK)"),
    Choice("es-ES", "Spanish"),
    Choice("fr-FR", "French"),
    Choice("de-DE", "German"),
    Choice("it-IT", "Italian"),
    Choice("ja-JP", "Japanese"),
    Choice("ko-KR", "Korean"),
    Choice("zh-CN", "Chinese (Mandarin)")
  ]

  /** The second entry is a placeholder that the service replaces by its
      fallback model. */
  const MODELS: seq<Choice> := [
    Choice("gemini-2.5-flash", "Gemini 2.5 Flash (Fast & Efficient)"),
    Choice("aura-hf", "Aura High-Fidelity (Premium)")
  ]

  const DEFAULT_SETTINGS: AppSettings := AppSettings(
    language := "en-US",
    model := "gemini-2.5-flash",
    enableDiarization := true,
    enablePunctuation := true,
    enableSummarization := false,
    addTimestamps := false,
    filterProfanity := true,
    customVocabulary := "")

  const MAX_FILE_SIZE_MB: nat := 50
  const MAX_FILE_SIZE_BYTES: nat := MAX_FILE_SIZE_MB * 1024 * 1024

  /** The values of a list are pairwise distinct, so they can serve as keys. */
  predicate DistinctValues(choices: seq<Choice>) {
    forall i, j :: 0 <= i < j < |choices| ==> choices[i].value != choices[j].value
  }

  lemma MaxFileSize()
    ensures MAX_FILE_SIZE_BYTES == 52428800
  {
  }

  lemma OptionKeysDistinct()
    ensures DistinctValues(LANGUAGES)
    ensures DistinctValues(MODELS)
    ensures |LANGUAGES| == 9 && |MODELS| == 2
  {
  }
}
