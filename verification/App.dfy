/** The screen controller of App.tsx: the three screens, the submit
    handler that turns a transcription into a stored result, the return to
    the main screen, the settings record, and the choice of what to render.

    `handleTranscribe` is asynchronous: it records the source and shows the
    loading screen, awaits the service, then stores a result and shows it.
    It is modelled as two steps, `Begin` and `Settle`, with whatever the
    await produced (`Settled`) between them. The remote model is the
    `remote` parameter of the file service. */
module App {
  import opened Types
  import opened Strings
  import Constants
  import Service
  import UrlReport
  import MainScreen
  import LoadingScreen

  /** The state held by the application component. */
  datatype AppState = AppState(
    screen: ScreenState,
    result: Option<TranscriptionResult>,
    settings: AppSettings,
    source: Option<Source>)

  const Initial := AppState(MAIN, None, Constants.DEFAULT_SETTINGS, None)

  const FailedTitle := "Transcription Failed"
  const SucceededTitle := "Transcription Successful"
  const UnknownErrorText := "An unknown error occurred."

  /** What the awaited service call ended with: a string, or a rejection. */
  datatype Settled = Resolved(transcript: string) | Rejected(error: Service.Thrown)

  /** The routing of `handleTranscribe`: a URL goes to the URL stand-in, a
      file to the file service; both answer with a string. */
  function Transcribe(src: Source, settings: AppSettings,
                      remote: Service.Request -> Service.RemoteOutcome): (transcript: string)
    ensures src.UrlSource? ==> transcript == UrlReport.TranscribeUrl(src.url, settings)
    ensures src.FileSource? ==>
              transcript == Service.TranscribeFile(src.file, settings, remote)
  {
    match src
    case UrlSource(url) => UrlReport.TranscribeUrl(url, settings)
    case FileSource(file) => Service.TranscribeFile(file, settings, remote)
  }

  /** A returned transcript becomes a result: a failure exactly when it
      starts with the failure marker, with the matching title, and the
      text kept as it is. */
  function Normalize(transcript: string): (r: TranscriptionResult)
    ensures r.status == FAILURE <==> StartsWith(transcript, Service.FailureMarker)
    ensures r.title == (if r.status == FAILURE then FailedTitle else SucceededTitle)
    ensures r.transcript == transcript
  {
    var isFailure := StartsWith(transcript, Service.FailureMarker);
    TranscriptionResult(
      if isFailure then FAILURE else SUCCESS,
      transcript,
      if isFailure then FailedTitle else SucceededTitle)
  }

  /** The catch block: always a failure, carrying the error's message, or
      a fixed text when something other than an `Error` was thrown. */
  function Caught(e: Service.Thrown): (r: TranscriptionResult)
    ensures r.status == FAILURE && r.title == FailedTitle
    ensures e.ErrorInstance? ==> r.transcript == e.message
    ensures e.NonError? ==> r.transcript == UnknownErrorText
  {
    TranscriptionResult(
      FAILURE,
      if e.ErrorInstance? then e.message else UnknownErrorText,
      FailedTitle)
  }

  function ResultOf(outcome: Settled): TranscriptionResult {
    match outcome
    case Resolved(t) => Normalize(t)
    case Rejected(e) => Caught(e)
  }

  /** Whatever the outcome, the title names the status. */
  lemma TitleNamesStatus(outcome: Settled)
    ensures ResultOf(outcome).title == FailedTitle <==> ResultOf(outcome).status == FAILURE
    ensures ResultOf(outcome).title == SucceededTitle <==> ResultOf(outcome).status == SUCCESS
  {
    assert |FailedTitle| != |SucceededTitle|;
  }

  /** The first two statements of `handleTranscribe`: the source is
      recorded and the loading screen shown before anything is awaited. */
  function Begin(st: AppState, src: Source): (r: AppState)
    ensures r.screen == LOADING && r.source == Some(src)
    ensures r.result == st.result && r.settings == st.settings
  {
    st.(source := Some(src), screen := LOADING)
  }

  /** The rest of `handleTranscribe`: the result is stored, and the
      `finally` block shows the result screen whatever happened. */
  function Settle(st: AppState, outcome: Settled): (r: AppState)
    ensures r.screen == RESULT && r.result.Some?
    ensures r.source == st.source && r.settings == st.settings
    ensures outcome.Resolved? ==>
              (r.result.value.status == FAILURE <==> StartsWith(outcome.transcript, Service.FailureMarker))
    ensures outcome.Rejected? ==> r.result.value.status == FAILURE
    ensures r.result == Some(ResultOf(outcome))
  {
    st.(result := Some(ResultOf(outcome)), screen := RESULT)
  }

  /** `handleTranscribe(src)` when the awaited call returns normally, which
      is what both service functions do. */
  function HandleTranscribe(st: AppState, src: Source,
                            remote: Service.Request -> Service.RemoteOutcome): (r: AppState)
    ensures r.screen == RESULT && r.source == Some(src) && r.settings == st.settings
    ensures r.result == Some(Normalize(Transcribe(src, st.settings, remote)))
  {
    Settle(Begin(st, src), Resolved(Transcribe(src, st.settings, remote)))
  }

  /** A URL always yields a successful result holding the mock report. */
  lemma UrlSucceeds(st: AppState, url: string, remote: Service.Request -> Service.RemoteOutcome)
    ensures HandleTranscribe(st, UrlSource(url), remote).result ==
              Some(TranscriptionResult(SUCCESS, UrlReport.TranscribeUrl(url, st.settings), SucceededTitle))
  {
    UrlReport.ReportIsNotAFailure(url, st.settings);
  }

  /** A file whose remote call throws yields a failed result whose text
      reads back as the error's kind. */
  lemma FileErrorFails(st: AppState, file: MediaFile, remote: Service.Request -> Service.RemoteOutcome)
    requires remote(Service.FileRequest(file, st.settings)).Raised?
    ensures var r := HandleTranscribe(st, FileSource(file), remote).result.value;
      && r.status == FAILURE && r.title == FailedTitle
      && Service.ParseFailure(r.transcript) ==
           Some(Service.Classify(remote(Service.FileRequest(file, st.settings)).error))
  {
  }

  /** A file whose remote call answers yields that answer verbatim, marked
      a success unless the answer itself starts with the failure marker. */
  lemma FileAnswerKept(st: AppState, file: MediaFile, remote: Service.Request -> Service.RemoteOutcome)
    requires remote(Service.FileRequest(file, st.settings)).Responded?
    ensures var text := remote(Service.FileRequest(file, st.settings)).text;
      var r := HandleTranscribe(st, FileSource(file), remote).result.value;
      && r.transcript == text
      && (r.status == SUCCESS <==> !StartsWith(text, Service.FailureMarker))
  {
  }

  /** `resetToMain`: no result, no source, the main screen; the settings
      stay. */
  function ResetToMain(st: AppState): (r: AppState)
    ensures r.screen == MAIN && r.result.None? && r.source.None?
    ensures r.settings == st.settings
  {
    st.(result := None, source := None, screen := MAIN)
  }

  lemma ResetIdempotent(st: AppState)
    ensures ResetToMain(ResetToMain(st)) == ResetToMain(st)
  {
  }

  /** `handleSettingsChange`: the new record replaces the old one whole;
      nothing else changes. */
  function SettingsChange(st: AppState, s: AppSettings): (r: AppState)
    ensures r.settings == s
    ensures r.screen == st.screen && r.result == st.result && r.source == st.source
  {
    st.(settings := s)
  }

  /** What the user and the pending call can do. Submitting, editing the
      settings, returning: each is offered by one screen only, so each
      event takes effect only on that screen. */
  datatype Event =
    | Submit(inputs: MainScreen.Inputs)
    | EditSetting(setting: MainScreen.Setting)
    | Finish(remote: Service.Request -> Service.RemoteOutcome)
    | Abort(error: Service.Thrown)
    | GoBack

  /** One step of the application. `Submit` is the main screen's button on
      its current inputs (no source, no step); `Finish` is the awaited call
      returning for the recorded source and settings; `Abort` is it being
      rejected instead. */
  function Step(st: AppState, e: Event): AppState {
    match e
    case Submit(inputs) =>
      if st.screen == MAIN then
        match MainScreen.TranscribeClick(inputs)
        case Some(src) => Begin(st, src)
        case None => st
      else st
    case EditSetting(v) =>
      if st.screen == MAIN then SettingsChange(st, MainScreen.SetSetting(st.settings, v)) else st
    case Finish(remote) =>
      if st.screen == LOADING && st.source.Some? then
        Settle(st, Resolved(Transcribe(st.source.value, st.settings, remote)))
      else st
    case Abort(error) =>
      if st.screen == LOADING then Settle(st, Rejected(error)) else st
    case GoBack =>
      if st.screen == RESULT then ResetToMain(st) else st
  }

  function Run(st: AppState, events: seq<Event>): AppState
    decreases |events|
  {
    if events == [] then st else Run(Step(st, events[0]), events[1..])
  }

  /** Submitting from the main screen and then finishing the call is
      `handleTranscribe` on the clicked source with the current settings:
      nothing can change the settings while the call is pending. */
  lemma SubmitThenFinish(st: AppState, inputs: MainScreen.Inputs,
                         remote: Service.Request -> Service.RemoteOutcome)
    requires st.screen == MAIN && MainScreen.TranscribeClick(inputs).Some?
    ensures Step(Step(st, Submit(inputs)), Finish(remote)) ==
              HandleTranscribe(st, MainScreen.TranscribeClick(inputs).value, remote)
  {
    var src := MainScreen.TranscribeClick(inputs).value;
    var loading := Step(st, Submit(inputs));
    assert loading == Begin(st, src);
    assert Step(loading, Finish(remote)) == Settle(loading, Resolved(Transcribe(src, st.settings, remote)));
  }

  /** A disabled button submits nothing: the state stays as it is. */
  lemma DisabledSubmitIgnored(st: AppState, inputs: MainScreen.Inputs)
    requires MainScreen.Disabled(inputs)
    ensures Step(st, Submit(inputs)) == st
  {
  }

  /** The invariant of the screens: the main screen has no result and no
      source; the loading screen has a source and no result yet; the result
      screen has both. A recorded URL is never empty. */
  predicate Valid(st: AppState) {
    && (st.screen == MAIN ==> st.result.None? && st.source.None?)
    && (st.screen == LOADING ==> st.result.None? && st.source.Some?)
    && (st.screen == RESULT ==> st.result.Some? && st.source.Some?)
    && (st.source.Some? && st.source.value.UrlSource? ==> st.source.value.url != [])
  }

  lemma StepValid(st: AppState, e: Event)
    requires Valid(st)
    ensures Valid(Step(st, e))
  {
  }

  lemma {:induction false} RunValid(st: AppState, events: seq<Event>)
    requires Valid(st)
    ensures Valid(Run(st, events))
    decreases |events|
  {
    if events != [] {
      StepValid(st, events[0]);
      RunValid(Step(st, events[0]), events[1..]);
    }
  }

  /** Every state reachable from the initial one satisfies the invariant. */
  lemma ReachableValid(events: seq<Event>)
    ensures Valid(Run(Initial, events))
  {
    RunValid(Initial, events);
  }

  /** What `renderContent` shows. `Nothing` is the `null` that
      `result && …` yields when there is no result. */
  datatype View =
    | MainView(settings: AppSettings)
    | LoadingView(sourceName: string)
    | ResultView(result: TranscriptionResult)
    | Nothing

  function Render(st: AppState): View {
    match st.screen
    case LOADING => LoadingView(LoadingScreen.SourceName(st.source))
    case RESULT => if st.result.Some? then ResultView(st.result.value) else Nothing
    case MAIN => MainView(st.settings)
  }

  /** In a valid state the result screen always has a result to show, and
      the loading screen always names its source. */
  lemma RenderValid(st: AppState)
    requires Valid(st)
    ensures Render(st) != Nothing
    ensures st.screen == RESULT ==> Render(st) == ResultView(st.result.value)
    ensures st.screen == LOADING ==> Render(st).sourceName != []
  {
    if st.screen == LOADING {
      LoadingScreen.SourceNameKinds(st.source);
    }
  }

  /** Returning to the main screen from any state yields the initial
      screen with that state's settings kept. */
  lemma ResetRestoresInitial(st: AppState)
    ensures ResetToMain(st) == Initial.(settings := st.settings)
  {
  }

  /** A rejected call on the loading screen stores exactly what the catch
      block builds: a failure titled as such, carrying the error's message
      or the fixed text, and shows the result screen. */
  lemma AbortStoresCaught(st: AppState, e: Service.Thrown)
    requires st.screen == LOADING
    ensures Step(st, Abort(e)).screen == RESULT
    ensures Step(st, Abort(e)).result ==
              Some(TranscriptionResult(FAILURE,
                                       if e.ErrorInstance? then e.message else UnknownErrorText,
                                       FailedTitle))
  {
  }
}
