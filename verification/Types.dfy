/** The records and enumerations shared by the screens and the service
    (types.ts), plus the two values the UI passes around untyped in the
    source: the selected media file and the `File | string` source. */
module Types {

  /** The `| null` of the source's state fields. */
  datatype Option<+T> = None | Some(value: T)

  /** Which view the application shows; exactly three values. */
  datatype ScreenState = MAIN | LOADING | RESULT

  /** Outcome of one transcription attempt; exactly two values. */
  datatype TranscriptionStatus = SUCCESS | FAILURE

  /** Created once per attempt; every field is always present. */
  datatype TranscriptionResult = TranscriptionResult(
    status: TranscriptionStatus,
    transcript: string,
    title: string)

  /** The transcription options: two codes, five switches, free text. */
  datatype AppSettings = AppSettings(
    language: string,
    model: string,
    enableDiarization: bool,
    enablePunctuation: bool,
    enableSummarization: bool,
    addTimestamps: bool,
    filterProfanity: bool,
    customVocabulary: string)

  /** The parts of a browser `File` the front end reads: its name, its size
      in bytes and its MIME type. The contents are never inspected. */
  datatype MediaFile = MediaFile(name: string, size: nat, mimeType: string)

  /** What the user submits: an uploaded file or a typed URL. */
  datatype Source = FileSource(file: MediaFile) | UrlSource(url: string)
}
