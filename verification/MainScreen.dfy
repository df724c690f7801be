/** The input panel of components/MainScreen.tsx: choosing between an
    uploaded file and a URL, the size check on files, the Transcribe
    button, and the single-field settings edit.

    The panel's state is the record `{url, file, error}`; each handler is a
    step function on it. A file picker that returns no file is `None`. */
module MainScreen {
  import opened Types
  import opened Strings
  import Constants

  /** The panel's own state. */
  datatype Inputs = Inputs(url: string, file: Option<MediaFile>, error: Option<string>)

  /** Both inputs empty, no message. */
  const InitialInputs := Inputs("", None, None)

  /** The message shown for an oversized file; the limit is spelled out in
      megabytes. */
  const TooLargeMessage := "File is too large. Maximum size is " + Decimal(Constants.MAX_FILE_SIZE_MB) + "MB."

  lemma TooLargeMessageText()
    ensures TooLargeMessage == "File is too large. Maximum size is 50MB."
  {
    assert Decimal(5) == "5";
    assert Decimal(50) == "50";
  }

  /** Whether the picker's file is accepted: not above the byte limit. */
  predicate FitsLimit(f: MediaFile) {
    f.size <= Constants.MAX_FILE_SIZE_BYTES
  }

  /** `handleFileChange`: no selection changes nothing; an oversized file
      is refused with a message and clears any earlier file but keeps the
      URL; an acceptable file replaces the URL and clears the message. */
  function FileChange(st: Inputs, selected: Option<MediaFile>): (r: Inputs)
    ensures selected.None? ==> r == st
    ensures selected.Some? && !FitsLimit(selected.value) ==>
              r.file.None? && r.error == Some(TooLargeMessage) && r.url == st.url
    ensures selected.Some? && FitsLimit(selected.value) ==>
              r.file == selected && r.error.None? && r.url == ""
  {
    match selected
    case None => st
    case Some(f) =>
      if f.size > Constants.MAX_FILE_SIZE_BYTES then
        st.(error := Some(TooLargeMessage), file := None)
      else
        st.(error := None, file := Some(f), url := "")
  }

  /** A picked file is taken exactly when it is within the limit; a file of
      exactly 50 MiB is accepted and one byte more is refused. */
  lemma FileAcceptedIff(st: Inputs, f: MediaFile)
    ensures FileChange(st, Some(f)).file == Some(f) <==> f.size <= 52428800
    ensures FileChange(st, Some(f)).error.None? <==> f.size <= 52428800
  {
    Constants.MaxFileSize();
  }

  /** The URL field's `onChange`: the typed text replaces the URL and any
      file or message is dropped. */
  function UrlEdit(st: Inputs, text: string): (r: Inputs)
    ensures r.url == text && r.file.None? && r.error.None?
  {
    Inputs(text, None, None)
  }

  /** The Transcribe button's `disabled` condition: no file and an empty
      URL (an empty string is falsy). */
  predicate Disabled(st: Inputs) {
    st.file.None? && st.url == ""
  }

  /** `handleTranscribeClick`: the file if there is one, else the URL if it
      is non-empty, else nothing. */
  function TranscribeClick(st: Inputs): (r: Option<Source>)
    ensures st.file.Some? ==> r == Some(FileSource(st.file.value))
    ensures st.file.None? && st.url != "" ==> r == Some(UrlSource(st.url))
    ensures r.None? <==> Disabled(st)
    ensures r.Some? && r.value.UrlSource? ==> r.value.url != []
  {
    match st.file
    case Some(f) => Some(FileSource(f))
    case None => if st.url != "" then Some(UrlSource(st.url)) else None
  }

  /** What the panel guarantees from its initial state: a chosen file and a
      URL never coexist, a file and a message never coexist, and the only
      message is the size message. */
  predicate Consistent(st: Inputs) {
    && (st.file.Some? ==> st.url == "" && st.error.None?)
    && (st.error.Some? ==> st.error.value == TooLargeMessage)
  }

  /** The user actions on the panel. */
  datatype InputEvent = PickFile(selected: Option<MediaFile>) | EditUrl(text: string)

  function Apply(st: Inputs, e: InputEvent): Inputs {
    match e
    case PickFile(selected) => FileChange(st, selected)
    case EditUrl(text) => UrlEdit(st, text)
  }

  /** The state after a sequence of actions, in order. */
  function Run(st: Inputs, events: seq<InputEvent>): Inputs
    decreases |events|
  {
    if events == [] then st else Run(Apply(st, events[0]), events[1..])
  }

  lemma ApplyConsistent(st: Inputs, e: InputEvent)
    requires Consistent(st)
    ensures Consistent(Apply(st, e))
  {
  }

  /** Every state reachable from the initial one is consistent. */
  lemma {:induction false} RunConsistent(st: Inputs, events: seq<InputEvent>)
    requires Consistent(st)
    ensures Consistent(Run(st, events))
    decreases |events|
  {
    if events != [] {
      ApplyConsistent(st, events[0]);
      RunConsistent(Apply(st, events[0]), events[1..]);
    }
  }

  lemma ReachableConsistent(events: seq<InputEvent>)
    ensures Consistent(Run(InitialInputs, events))
  {
    RunConsistent(InitialInputs, events);
  }

  /** The last word wins: after a non-empty URL edit the click sends that
      URL; after an accepted file it sends the file. */
  lemma LastInputIsSent(st: Inputs, text: string, f: MediaFile)
    ensures text != "" ==> TranscribeClick(UrlEdit(st, text)) == Some(UrlSource(text))
    ensures FitsLimit(f) ==> TranscribeClick(FileChange(st, Some(f))) == Some(FileSource(f))
  {
  }

  // ---------------------------------------------------------------------
  // The single-field settings edit, `handleSettingChange(key, value)`.

  /** The keys of `AppSettings`. */
  datatype Key =
    | LanguageKey | ModelKey | DiarizationKey | PunctuationKey
    | SummarizationKey | TimestampsKey | ProfanityKey | VocabularyKey

  /** A key together with a value of that key's type. */
  datatype Setting =
    | Language(code: string) | Model(name: string)
    | Diarization(on: bool) | Punctuation(on: bool) | Summarization(on: bool)
    | Timestamps(on: bool) | Profanity(on: bool) | Vocabulary(words: string)

  function KeyOf(v: Setting): Key {
    match v
    case Language(_) => LanguageKey
    case Model(_) => ModelKey
    case Diarization(_) => DiarizationKey
    case Punctuation(_) => PunctuationKey
    case Summarization(_) => SummarizationKey
    case Timestamps(_) => TimestampsKey
    case Profanity(_) => ProfanityKey
    case Vocabulary(_) => VocabularyKey
  }

  /** Field `k` of the settings, tagged with its key. */
  function Get(s: AppSettings, k: Key): (v: Setting)
    ensures KeyOf(v) == k
  {
    match k
    case LanguageKey => Language(s.language)
    case ModelKey => Model(s.model)
    case DiarizationKey => Diarization(s.enableDiarization)
    case PunctuationKey => Punctuation(s.enablePunctuation)
    case SummarizationKey => Summarization(s.enableSummarization)
    case TimestampsKey => Timestamps(s.addTimestamps)
    case ProfanityKey => Profanity(s.filterProfanity)
    case VocabularyKey => Vocabulary(s.customVocabulary)
  }

  /** `{ ...settings, [key]: value }`: field `key` takes the new value and
      every other field keeps its old one. */
  function SetSetting(s: AppSettings, v: Setting): (r: AppSettings)
    ensures Get(r, KeyOf(v)) == v
    ensures forall k :: k != KeyOf(v) ==> Get(r, k) == Get(s, k)
  {
    AppSettings(
      if v.Language? then v.code else s.language,
      if v.Model? then v.name else s.model,
      if v.Diarization? then v.on else s.enableDiarization,
      if v.Punctuation? then v.on else s.enablePunctuation,
      if v.Summarization? then v.on else s.enableSummarization,
      if v.Timestamps? then v.on else s.addTimestamps,
      if v.Profanity? then v.on else s.filterProfanity,
      if v.Vocabulary? then v.words else s.customVocabulary)
  }

  /** Settings are determined by their fields. */
  lemma SettingsExtensional(a: AppSettings, b: AppSettings)
    requires forall k :: Get(a, k) == Get(b, k)
    ensures a == b
  {
    assert Get(a, LanguageKey) == Get(b, LanguageKey);
    assert Get(a, ModelKey) == Get(b, ModelKey);
    assert Get(a, DiarizationKey) == Get(b, DiarizationKey);
    assert Get(a, PunctuationKey) == Get(b, PunctuationKey);
    assert Get(a, SummarizationKey) == Get(b, SummarizationKey);
    assert Get(a, TimestampsKey) == Get(b, TimestampsKey);
    assert Get(a, ProfanityKey) == Get(b, ProfanityKey);
    assert Get(a, VocabularyKey) == Get(b, VocabularyKey);
  }

  /** Writing back a field's current value changes nothing. */
  lemma SetCurrentValue(s: AppSettings, k: Key)
    ensures SetSetting(s, Get(s, k)) == s
  {
    forall j ensures Get(SetSetting(s, Get(s, k)), j) == Get(s, j) {
    }
    SettingsExtensional(SetSetting(s, Get(s, k)), s);
  }

  /** Writing the same field twice keeps the second value. */
  lemma SetSameKeyTwice(s: AppSettings, v: Setting, w: Setting)
    requires KeyOf(v) == KeyOf(w)
    ensures SetSetting(SetSetting(s, v), w) == SetSetting(s, w)
  {
    var a, b := SetSetting(SetSetting(s, v), w), SetSetting(s, w);
    forall j ensures Get(a, j) == Get(b, j) {
    }
    SettingsExtensional(a, b);
  }

  /** Edits of different fields commute. */
  lemma SetDistinctKeysCommute(s: AppSettings, v: Setting, w: Setting)
    requires KeyOf(v) != KeyOf(w)
    ensures SetSetting(SetSetting(s, v), w) == SetSetting(SetSetting(s, w), v)
  {
    // Each field is written by at most one of the two edits.
    assert !(v.Language? && w.Language?) && !(v.Model? && w.Model?);
    assert !(v.Diarization? && w.Diarization?) && !(v.Punctuation? && w.Punctuation?);
    assert !(v.Summarization? && w.Summarization?) && !(v.Timestamps? && w.Timestamps?);
    assert !(v.Profanity? && w.Profanity?) && !(v.Vocabulary? && w.Vocabulary?);
  }
}
