/** The URL transcription stand-in of services/geminiService.ts
    (`transcribeUrl`). It fetches nothing: after a fixed delay (not modelled)
    it returns a Markdown report that echoes the URL and every setting.

    The report is modelled as its lines joined by line feeds, which is what
    the multi-line template literal produces. The fixed texts of the report
    are gathered in a `Template`; the layout and its properties are stated
    for any template and then applied to the one `transcribeUrl` uses. */
module UrlReport {
  import opened Types
  import opened Strings
  import Service

  /** The fixed texts of the report: the headings, the text around the URL,
      the labels of the settings, and how a switch and an empty vocabulary
      are shown. */
  datatype Template = Template(
    heading: string, urlLead: string, urlClose: string, disclaimer: string,
    settingsHeading: string,
    modelLabel: string, languageLabel: string, diarizationLabel: string,
    punctuationLabel: string, timestampsLabel: string, profanityLabel: string,
    summaryLabel: string, vocabularyLabel: string,
    closing: string,
    enabled: string, disabled: string, noVocabulary: string)

  /** The texts of `transcribeUrl`. */
  const ReportTexts := Template(
    "## Mock Transcription for URL",
    "This is a simulated transcription for the URL: `",
    "`.",
    "**Disclaimer:** In a real-world application, a server-side component would be necessary to download and process content from web links before sending it to the AI for transcription. This client-side demonstration mimics that process.",
    "### Applied Settings:",
    "- **Model:** ",
    "- **Language:** ",
    "- **Speaker Diarization:** ",
    "- **Punctuation:** ",
    "- **Timestamps:** ",
    "- **Profanity Filter:** ",
    "- **Summary:** ",
    "- **Custom Vocabulary:** ",
    "The actual transcription would appear here.",
    "Enabled",
    "Disabled",
    "None")

  /** How a switch is shown. */
  function OnOff(t: Template, b: bool): string {
    if b then t.enabled else t.disabled
  }

  /** `customVocabulary.trim() || 'None'`: an empty trimmed string is falsy. */
  function VocabularyShown(t: Template, v: string): (shown: string)
    ensures Trim(v) == [] ==> shown == t.noVocabulary
    ensures Trim(v) != [] ==> shown == Trim(v) && shown != []
  {
    var x := Trim(v);
    if x != [] then x else t.noVocabulary
  }

  /** The lines of the report laid out with the texts of `t`. */
  function Lines(t: Template, url: string, s: AppSettings): (lines: seq<string>)
    ensures |lines| == 17
  {
    [ t.heading,
      "",
      t.urlLead + url + t.urlClose,
      "",
      t.disclaimer,
      "",
      t.settingsHeading,
      t.modelLabel + s.model,
      t.languageLabel + s.language,
      t.diarizationLabel + OnOff(t, s.enableDiarization),
      t.punctuationLabel + OnOff(t, s.enablePunctuation),
      t.timestampsLabel + OnOff(t, s.addTimestamps),
      t.profanityLabel + OnOff(t, s.filterProfanity),
      t.summaryLabel + OnOff(t, s.enableSummarization),
      t.vocabularyLabel + VocabularyShown(t, s.customVocabulary),
      "",
      t.closing ]
  }

  /** Lines joined by line feeds. */
  function JoinLines(lines: seq<string>): string {
    if |lines| == 0 then []
    else if |lines| == 1 then lines[0]
    else lines[0] + "\n" + JoinLines(lines[1..])
  }

  /** The lines `transcribeUrl(url, settings)` returns once its delay has
      elapsed. */
  function ReportLines(url: string, s: AppSettings): seq<string> {
    Lines(ReportTexts, url, s)
  }

  /** `transcribeUrl(url, settings)` once its delay has elapsed. */
  function TranscribeUrl(url: string, s: AppSettings): string {
    JoinLines(ReportLines(url, s))
  }

  lemma {:induction false} JoinLinesContains(lines: seq<string>, i: nat)
    requires i < |lines|
    ensures Contains(JoinLines(lines), lines[i])
  {
    if |lines| == 1 {
      ContainsAt(JoinLines(lines), lines[0], 0);
    } else if i == 0 {
      ContainsAt(JoinLines(lines), lines[0], 0);
    } else {
      JoinLinesContains(lines[1..], i - 1);
      var rest := JoinLines(lines[1..]);
      assert JoinLines(lines) == lines[0] + "\n" + rest;
      ContainsMiddle(lines[0] + "\n", rest, []);
      assert lines[0] + "\n" + rest + [] == JoinLines(lines);
      ContainsTrans(JoinLines(lines), rest, lines[i]);
    }
  }

  lemma JoinLinesStart(lines: seq<string>)
    requires |lines| > 0
    ensures StartsWith(JoinLines(lines), lines[0])
  {
    if |lines| > 1 {
      StartsWithConcat(lines[0], "\n" + JoinLines(lines[1..]));
      assert JoinLines(lines) == lines[0] + ("\n" + JoinLines(lines[1..]));
    }
  }

  /** Whatever the texts, the joined lines contain the URL. */
  lemma LinesEchoUrl(t: Template, url: string, s: AppSettings)
    ensures Contains(JoinLines(Lines(t, url, s)), url)
  {
    var lines := Lines(t, url, s);
    var line := t.urlLead + url + t.urlClose;
    assert Contains(JoinLines(lines), line) by {
      JoinLinesContains(lines, 2);
    }
    assert Contains(line, url) by {
      ContainsMiddle(t.urlLead, url, t.urlClose);
    }
    ContainsTrans(JoinLines(lines), line, url);
  }

  /** Whatever the texts, the joined lines contain each setting line. */
  lemma LinesEchoSettings(t: Template, url: string, s: AppSettings)
    ensures var r := JoinLines(Lines(t, url, s));
      && Contains(r, t.modelLabel + s.model)
      && Contains(r, t.languageLabel + s.language)
      && Contains(r, t.diarizationLabel + OnOff(t, s.enableDiarization))
      && Contains(r, t.punctuationLabel + OnOff(t, s.enablePunctuation))
      && Contains(r, t.timestampsLabel + OnOff(t, s.addTimestamps))
      && Contains(r, t.profanityLabel + OnOff(t, s.filterProfanity))
      && Contains(r, t.summaryLabel + OnOff(t, s.enableSummarization))
      && Contains(r, t.vocabularyLabel + VocabularyShown(t, s.customVocabulary))
  {
    var lines := Lines(t, url, s);
    JoinLinesContains(lines, 7);
    JoinLinesContains(lines, 8);
    JoinLinesContains(lines, 9);
    JoinLinesContains(lines, 10);
    JoinLinesContains(lines, 11);
    JoinLinesContains(lines, 12);
    JoinLinesContains(lines, 13);
    JoinLinesContains(lines, 14);
  }

  /** The report names the URL. */
  lemma ReportEchoesUrl(url: string, s: AppSettings)
    ensures Contains(TranscribeUrl(url, s), url)
  {
    LinesEchoUrl(ReportTexts, url, s);
  }

  /** The report shows every setting with its label: model, language, each
      of the five switches as Enabled or Disabled, and the trimmed
      vocabulary or None. */
  lemma ReportEchoesSettings(url: string, s: AppSettings)
    ensures var r := TranscribeUrl(url, s);
      && Contains(r, ReportTexts.modelLabel + s.model)
      && Contains(r, ReportTexts.languageLabel + s.language)
      && Contains(r, ReportTexts.diarizationLabel + OnOff(ReportTexts, s.enableDiarization))
      && Contains(r, ReportTexts.punctuationLabel + OnOff(ReportTexts, s.enablePunctuation))
      && Contains(r, ReportTexts.timestampsLabel + OnOff(ReportTexts, s.addTimestamps))
      && Contains(r, ReportTexts.profanityLabel + OnOff(ReportTexts, s.filterProfanity))
      && Contains(r, ReportTexts.summaryLabel + OnOff(ReportTexts, s.enableSummarization))
      && Contains(r, ReportTexts.vocabularyLabel + VocabularyShown(ReportTexts, s.customVocabulary))
  {
    LinesEchoSettings(ReportTexts, url, s);
  }

  /** The report opens with its heading, so it never carries the failure
      marker "Transcription Failed:" that callers test for. */
  lemma ReportIsNotAFailure(url: string, s: AppSettings)
    ensures StartsWith(TranscribeUrl(url, s), ReportTexts.heading)
    ensures !StartsWith(TranscribeUrl(url, s), Service.FailureMarker)
  {
    JoinLinesStart(ReportLines(url, s));
    assert TranscribeUrl(url, s)[0] == ReportTexts.heading[0] == '#';
    assert Service.FailureMarker[0] == 'T';
  }

  // ---------------------------------------------------------------------
  // Reading the settings back from the report lines: the partner of
  // Lines.

  /** Everything the report echoes. */
  datatype Echo = Echo(
    url: string, model: string, language: string,
    diarization: bool, punctuation: bool, timestamps: bool,
    profanity: bool, summary: bool, vocabulary: string)

  function EchoOf(t: Template, url: string, s: AppSettings): Echo {
    Echo(url, s.model, s.language, s.enableDiarization, s.enablePunctuation,
         s.addTimestamps, s.filterProfanity, s.enableSummarization,
         VocabularyShown(t, s.customVocabulary))
  }

  /** The text of `line` after `tag`, if it starts with it. */
  function After(line: string, tag: string): Option<string> {
    if StartsWith(line, tag) then Some(line[|tag|..]) else None
  }

  function ReadSwitch(t: Template, line: string, tag: string): Option<bool> {
    match After(line, tag)
    case Some(v) =>
      if v == t.enabled then Some(true) else if v == t.disabled then Some(false) else None
    case None => None
  }

  /** The URL between the lead text and the closing text. */
  function ReadUrl(t: Template, line: string): Option<string> {
    if |t.urlLead| + |t.urlClose| <= |line| && StartsWith(line, t.urlLead) && EndsWith(line, t.urlClose)
    then Some(line[|t.urlLead|..|line| - |t.urlClose|])
    else None
  }

  function ReadBack(t: Template, lines: seq<string>): Option<Echo> {
    if |lines| != 17 then None
    else
      match (ReadUrl(t, lines[2]), After(lines[7], t.modelLabel), After(lines[8], t.languageLabel),
             ReadSwitch(t, lines[9], t.diarizationLabel), ReadSwitch(t, lines[10], t.punctuationLabel),
             ReadSwitch(t, lines[11], t.timestampsLabel), ReadSwitch(t, lines[12], t.profanityLabel),
             ReadSwitch(t, lines[13], t.summaryLabel), After(lines[14], t.vocabularyLabel))
      case (Some(u), Some(m), Some(l), Some(d), Some(p), Some(y), Some(f), Some(z), Some(v)) =>
        Some(Echo(u, m, l, d, p, y, f, z, v))
      case _ => None
  }

  lemma AfterLabel(tag: string, v: string)
    ensures After(tag + v, tag) == Some(v)
  {
    StartsWithConcat(tag, v);
    assert (tag + v)[|tag|..] == v;
  }

  lemma ReadSwitchLabel(t: Template, tag: string, b: bool)
    requires t.enabled != t.disabled
    ensures ReadSwitch(t, tag + OnOff(t, b), tag) == Some(b)
  {
    AfterLabel(tag, OnOff(t, b));
  }

  lemma ReadUrlLine(t: Template, url: string)
    ensures ReadUrl(t, t.urlLead + url + t.urlClose) == Some(url)
  {
    var line := t.urlLead + url + t.urlClose;
    StartsWithConcat(t.urlLead, url + t.urlClose);
    assert line == t.urlLead + (url + t.urlClose);
    assert line[|line| - |t.urlClose|..] == t.urlClose;
    assert line[|t.urlLead|..|line| - |t.urlClose|] == url;
  }

  /** When a switch's two texts differ, the URL and every setting shown can
      be read back from the lines. */
  lemma ReadBackLines(t: Template, url: string, s: AppSettings)
    requires t.enabled != t.disabled
    ensures ReadBack(t, Lines(t, url, s)) == Some(EchoOf(t, url, s))
  {
    ReadUrlLine(t, url);
    AfterLabel(t.modelLabel, s.model);
    AfterLabel(t.languageLabel, s.language);
    ReadSwitchLabel(t, t.diarizationLabel, s.enableDiarization);
    ReadSwitchLabel(t, t.punctuationLabel, s.enablePunctuation);
    ReadSwitchLabel(t, t.timestampsLabel, s.addTimestamps);
    ReadSwitchLabel(t, t.profanityLabel, s.filterProfanity);
    ReadSwitchLabel(t, t.summaryLabel, s.enableSummarization);
    AfterLabel(t.vocabularyLabel, VocabularyShown(t, s.customVocabulary));
  }

  /** The URL and every setting shown can be read back from the report. */
  lemma ReadBackReport(url: string, s: AppSettings)
    ensures ReadBack(ReportTexts, ReportLines(url, s)) == Some(EchoOf(ReportTexts, url, s))
  {
    assert ReportTexts.enabled != ReportTexts.disabled by {
      assert |ReportTexts.enabled| != |ReportTexts.disabled|;
    }
    ReadBackLines(ReportTexts, url, s);
  }

  /** Equal report line lists echo the same URL and settings. This is about
      the lines: an echoed value may itself contain a line feed, so two
      different settings can join to the same report string. */
  lemma ReportDistinguishes(url1: string, s1: AppSettings, url2: string, s2: AppSettings)
    requires ReportLines(url1, s1) == ReportLines(url2, s2)
    ensures EchoOf(ReportTexts, url1, s1) == EchoOf(ReportTexts, url2, s2)
  {
    ReadBackReport(url1, s1);
    ReadBackReport(url2, s2);
  }
}
