/** The file transcription client of services/geminiService.ts
    (`transcribeFile`): model selection, the request it sends, and the
    mapping of every caught error to a marked failure string.

    The remote generative-model call is not modelled: it is a parameter
    `remote` that answers a request either with text or by throwing. */
module Service {
  import opened Types
  import opened Strings
  import Prompt
  import Constants

  /** Prefix of the model names the backend accepts. */
  const ModelFamily := "gemini"
  /** The model sent in place of one outside the family. */
  const FallbackModel := "gemini-2.5-flash"

  /** The leading marker by which callers recognise a failure. */
  const FailureMarker := "Transcription Failed:"
  /** The text whose presence in an error message means a bad credential. */
  const InvalidKeySign := "API key not valid"
  const InvalidKeyNote := "Invalid API Key." + " Please ensure your API key is configured correctly."
  const UnexpectedNote := "An unexpected error occurred. Details: "
  const InvalidKeyFailure := FailureMarker + " " + InvalidKeyNote
  const UnexpectedFailurePrefix := FailureMarker + " " + UnexpectedNote
  const UnknownErrorDetail := "Unknown error"

  /** The model actually sent: the configured one when it belongs to the
      family, the fallback otherwise. No model choice is ever an error. */
  function ResolveModel(model: string): (sent: string)
    ensures StartsWith(sent, ModelFamily)
    ensures StartsWith(model, ModelFamily) ==> sent == model
    ensures !StartsWith(model, ModelFamily) ==> sent == FallbackModel
  {
    if StartsWith(model, ModelFamily) then model else FallbackModel
  }

  /** Resolving an already resolved model changes nothing. */
  lemma ResolveModelIdempotent(model: string)
    ensures ResolveModel(ResolveModel(model)) == ResolveModel(model)
  {
  }

  /** The default model is sent as is; the placeholder entry of the model
      list is replaced by the fallback. */
  lemma ListedModels()
    ensures ResolveModel(Constants.DEFAULT_SETTINGS.model) == Constants.DEFAULT_SETTINGS.model
    ensures Constants.MODELS[0].value == Constants.DEFAULT_SETTINGS.model
    ensures Constants.MODELS[1].value == "aura-hf"
    ensures ResolveModel(Constants.MODELS[1].value) == FallbackModel
  {
    assert Constants.MODELS[1].value[0] == 'a';
  }

  /** A value caught by `catch (error)`: an `Error` instance with its
      message, or anything else that was thrown. */
  datatype Thrown = ErrorInstance(message: string) | NonError

  /** The two failure kinds the client distinguishes. */
  datatype Failure = InvalidApiKey | Unexpected(details: string)

  /** The detail embedded for an unexpected failure. */
  function Detail(e: Thrown): string {
    if e.ErrorInstance? then e.message else UnknownErrorDetail
  }

  /** The kind of failure a caught value stands for. */
  function Classify(e: Thrown): Failure {
    if e.ErrorInstance? && Contains(e.message, InvalidKeySign) then InvalidApiKey
    else Unexpected(Detail(e))
  }

  /** The string the catch block returns for a caught value. */
  function FailureText(e: Thrown): (text: string)
    ensures StartsWith(text, FailureMarker)
    ensures text == InvalidKeyFailure <==> e.ErrorInstance? && Contains(e.message, InvalidKeySign)
    ensures text != InvalidKeyFailure ==>
              StartsWith(text, UnexpectedFailurePrefix) && text[|UnexpectedFailurePrefix|..] == Detail(e)
  {
    FailureTextsMarked();
    if e.ErrorInstance? && Contains(e.message, InvalidKeySign) then
      InvalidKeyFailure
    else
      var text := UnexpectedFailurePrefix + Detail(e);
      UnexpectedIsNotInvalidKey(Detail(e));
      StartsWithConcat(UnexpectedFailurePrefix, Detail(e));
      StartsWithTrans(text, UnexpectedFailurePrefix, FailureMarker);
      text
  }

  /** A marker, a space and a note start with the marker. */
  lemma MarkerFirst(marker: string, note: string)
    ensures StartsWith(marker + " " + note, marker)
  {
    StartsWithConcat(marker, " ");
    StartsWithConcat(marker + " ", note);
    StartsWithTrans(marker + " " + note, marker + " ", marker);
  }

  /** Both failure texts open with the marker. */
  lemma FailureTextsMarked()
    ensures StartsWith(InvalidKeyFailure, FailureMarker)
    ensures StartsWith(UnexpectedFailurePrefix, FailureMarker)
  {
    MarkerFirst(FailureMarker, InvalidKeyNote);
    MarkerFirst(FailureMarker, UnexpectedNote);
  }

  /** The two failure texts part right after the marker and its space. */
  lemma UnexpectedIsNotInvalidKey(detail: string)
    ensures UnexpectedFailurePrefix + detail != InvalidKeyFailure
  {
    var head := FailureMarker + " ";
    var k := |head|;
    assert UnexpectedFailurePrefix + detail == head + (UnexpectedNote + detail);
    assert InvalidKeyFailure == head + InvalidKeyNote;
    assert (UnexpectedFailurePrefix + detail)[k] == UnexpectedNote[0] == 'A';
    assert InvalidKeyNote[0] == 'I';
    assert InvalidKeyFailure[k] == InvalidKeyNote[0];
  }

  /** Reads a failure string back into its kind: the structured form of the
      marker-based signalling. */
  function ParseFailure(text: string): Option<Failure> {
    if text == InvalidKeyFailure then Some(InvalidApiKey)
    else if StartsWith(text, UnexpectedFailurePrefix) then Some(Unexpected(text[|UnexpectedFailurePrefix|..]))
    else None
  }

  /** The failure string carries exactly the kind and detail of the error. */
  lemma ParseFailureText(e: Thrown)
    ensures ParseFailure(FailureText(e)) == Some(Classify(e))
  {
  }

  /** Whatever the parser accepts carries the failure marker. */
  lemma ParsedFailuresAreMarked(text: string)
    requires ParseFailure(text).Some?
    ensures StartsWith(text, FailureMarker)
  {
    FailureTextsMarked();
    if text != InvalidKeyFailure {
      StartsWithTrans(text, UnexpectedFailurePrefix, FailureMarker);
    }
  }

  /** What is sent to the remote model. */
  datatype Request = Request(model: string, prompt: string, media: MediaFile)

  /** What the remote call does: answer with text or throw. */
  datatype RemoteOutcome = Responded(text: string) | Raised(error: Thrown)

  /** The request `transcribeFile` sends for a file and settings. */
  function FileRequest(file: MediaFile, settings: AppSettings): (req: Request)
    ensures StartsWith(req.model, ModelFamily)
    ensures StartsWith(settings.model, ModelFamily) ==> req.model == settings.model
    ensures req.prompt == Prompt.BuildPrompt(settings) && req.media == file
  {
    Request(ResolveModel(settings.model), Prompt.BuildPrompt(settings), file)
  }

  /** `transcribeFile(file, settings)`: the remote text on success, a marked
      failure string for whatever the call throws. It never throws itself. */
  function TranscribeFile(file: MediaFile, settings: AppSettings, remote: Request -> RemoteOutcome): (text: string)
    ensures remote(FileRequest(file, settings)).Responded? ==>
              text == remote(FileRequest(file, settings)).text
    ensures remote(FileRequest(file, settings)).Raised? ==>
              StartsWith(text, FailureMarker)
              && ParseFailure(text) == Some(Classify(remote(FileRequest(file, settings)).error))
  {
    match remote(FileRequest(file, settings))
    case Responded(text) => text
    case Raised(e) =>
      ParseFailureText(e);
      FailureText(e)
  }

  /** Under the default settings the prompt asks for English (US),
      punctuation, speaker labels and censoring, then Markdown: no
      timestamps, vocabulary or summary. */
  lemma DefaultPrompt()
    ensures Prompt.Clauses(Prompt.OptionsOf(Constants.DEFAULT_SETTINGS)) ==
              [Prompt.Base("en-US"), Prompt.Punctuate, Prompt.Diarize,
               Prompt.CensorProfanity, Prompt.MarkdownOutput]
  {
    DefaultOptions();
    DefaultClauses(Prompt.PromptOptions("en-US", true, true, false, true, [], false));
  }

  lemma DefaultOptions()
    ensures Prompt.OptionsOf(Constants.DEFAULT_SETTINGS) ==
              Prompt.PromptOptions("en-US", true, true, false, true, [], false)
  {
    TrimEmptyIff(Constants.DEFAULT_SETTINGS.customVocabulary);
  }

  /** The clauses for options that switch on exactly punctuation, speaker
      labels and censoring. */
  lemma DefaultClauses(o: Prompt.PromptOptions)
    requires o.punctuation && o.diarization && !o.timestamps && o.profanity
    requires o.vocabulary == [] && !o.summary
    ensures Prompt.Clauses(o) ==
              [Prompt.Base(o.language), Prompt.Punctuate, Prompt.Diarize,
               Prompt.CensorProfanity, Prompt.MarkdownOutput]
  {
    var tail := Prompt.Closing(false);
    assert tail == [Prompt.MarkdownOutput];
    var t3 := Prompt.Optional(true, Prompt.CensorProfanity, tail);
    assert t3 == [Prompt.CensorProfanity, Prompt.MarkdownOutput];
    assert Prompt.OptionClauses(o) == [Prompt.Diarize] + t3;
  }

  /** Settings that differ only in a model outside the family produce the
      same request as the fallback model would. */
  lemma ModelFallbackRequest(file: MediaFile, settings: AppSettings)
    requires !StartsWith(settings.model, ModelFamily)
    ensures FileRequest(file, settings) == FileRequest(file, settings.(model := FallbackModel))
  {
    assert StartsWith(FallbackModel, ModelFamily);
  }
}
