/** The prompt compiler of services/geminiService.ts (`buildPrompt`).

    The prompt is a fixed base sentence followed by optional sentences, each
    switched by one setting. It is modelled as a list of clauses, each
    rendered to its fixed text, so that presence, absence and order can be
    stated on the list and carried over to the string. */
module Prompt {
  import opened Types
  import opened Strings

  /** What a prompt depends on: the settings without the model, with the
      vocabulary already trimmed. */
  datatype PromptOptions = PromptOptions(
    language: string,
    punctuation: bool,
    diarization: bool,
    timestamps: bool,
    profanity: bool,
    vocabulary: string,
    summary: bool)

  /** One sentence of the prompt. */
  datatype Clause =
    | Base(language: string)
    | Punctuate
    | NoPunctuation
    | Diarize
    | Timestamps
    | CensorProfanity
    | Vocabulary(words: string)
    | MarkdownOutput
    | Summary

  /** The fixed wording of the sentences. */
  datatype Wording = Wording(
    basePrefix: string, punctuate: string, noPunctuation: string,
    diarize: string, timestamps: string, censor: string,
    vocabularyPrefix: string, markdown: string, summary: string)

  /** The sentences `buildPrompt` writes. */
  const Words := Wording(
    "Transcribe the following audio/video content. The primary language is ",
    " Ensure proper punctuation is used throughout the transcript.",
    " Do not add any punctuation.",
    " Identify different speakers and label them clearly (e.g., Speaker 1:, Speaker 2:).",
    " Include timestamps in the format [HH:MM:SS] at meaningful intervals or speaker changes.",
    " If any profanity is present, censor it using asterisks (e.g., f***).",
    " Pay special attention to the following custom words, names, or acronyms and ensure they are transcribed correctly: ",
    " The output should be in well-structured Markdown format.",
    "\n\nAfter the full transcription, provide a concise summary of the content under a '## Summary' heading.")

  /** The text each clause contributes in wording `w`. */
  function Text(w: Wording, c: Clause): string {
    match c
    case Base(language) => w.basePrefix + language + "."
    case Punctuate => w.punctuate
    case NoPunctuation => w.noPunctuation
    case Diarize => w.diarize
    case Timestamps => w.timestamps
    case CensorProfanity => w.censor
    case Vocabulary(words) => w.vocabularyPrefix + words + "."
    case MarkdownOutput => w.markdown
    case Summary => w.summary
  }

  /** Position of a clause kind in the fixed order; the two punctuation
      clauses share a position since exactly one of them is emitted. */
  function Rank(c: Clause): nat {
    match c
    case Base(_) => 0
    case Punctuate => 1
    case NoPunctuation => 1
    case Diarize => 2
    case Timestamps => 3
    case CensorProfanity => 4
    case Vocabulary(_) => 5
    case MarkdownOutput => 6
    case Summary => 7
  }

  /** Clauses appear in the fixed order, each kind at most once. */
  predicate InOrder(cs: seq<Clause>) {
    forall i, j :: 0 <= i < j < |cs| ==> Rank(cs[i]) < Rank(cs[j])
  }

  /** Every clause of the list comes later in the order than rank `k`. */
  predicate RanksAbove(cs: seq<Clause>, k: int) {
    forall i :: 0 <= i < |cs| ==> Rank(cs[i]) > k
  }

  /** The projection `buildPrompt` actually reads: the vocabulary is trimmed
      before the emptiness check and before it is embedded. */
  function OptionsOf(s: AppSettings): PromptOptions {
    PromptOptions(s.language, s.enablePunctuation, s.enableDiarization,
                  s.addTimestamps, s.filterProfanity, Trim(s.customVocabulary),
                  s.enableSummarization)
  }

  /** Emits clause `c` in front of `rest` exactly when `b` holds. */
  function Optional(b: bool, c: Clause, rest: seq<Clause>): (cs: seq<Clause>)
    ensures |cs| == |rest| + (if b then 1 else 0)
    ensures b ==> cs[0] == c
  {
    if b then [c] + rest else rest
  }

  lemma OptionalMember(b: bool, c: Clause, rest: seq<Clause>, x: Clause)
    ensures x in Optional(b, c, rest) <==> (b && x == c) || x in rest
  {
    if b { assert Optional(b, c, rest) == [c] + rest; }
  }

  /** Placing a clause in front of later-ranked ones keeps the order. */
  lemma OptionalInOrder(b: bool, c: Clause, rest: seq<Clause>)
    requires InOrder(rest) && RanksAbove(rest, Rank(c))
    ensures InOrder(Optional(b, c, rest)) && RanksAbove(Optional(b, c, rest), Rank(c) - 1)
  {
    if b {
      var cs := [c] + rest;
      assert forall i :: 1 <= i < |cs| ==> cs[i] == rest[i - 1];
    }
  }

  lemma OptionalLast(b: bool, c: Clause, rest: seq<Clause>)
    requires |rest| > 0
    ensures Optional(b, c, rest)[|Optional(b, c, rest)| - 1] == rest[|rest| - 1]
  {
  }

  /** The Markdown instruction, then the summary request if asked for. */
  function Closing(summary: bool): (cs: seq<Clause>)
    ensures |cs| >= 1 && cs[0] == MarkdownOutput
    ensures cs[|cs| - 1] == (if summary then Summary else MarkdownOutput)
    ensures MarkdownOutput in cs
    ensures Summary in cs <==> summary
  {
    [MarkdownOutput] + if summary then [Summary] else []
  }

  /** The clauses after the punctuation clause. */
  function OptionClauses(o: PromptOptions): seq<Clause> {
    Optional(o.diarization, Diarize,
      Optional(o.timestamps, Timestamps,
        Optional(o.profanity, CensorProfanity,
          Optional(o.vocabulary != [], Vocabulary(o.vocabulary),
            Closing(o.summary)))))
  }

  function PunctuationClause(punctuation: bool): Clause {
    if punctuation then Punctuate else NoPunctuation
  }

  /** The clauses of the prompt for the given options, in emission order. */
  function Clauses(o: PromptOptions): (cs: seq<Clause>)
    ensures |cs| >= 3 && cs[0] == Base(o.language)
  {
    [Base(o.language), PunctuationClause(o.punctuation)] + OptionClauses(o)
  }

  /** Which clauses a prompt has: exactly one of the two punctuation
      clauses, each optional clause exactly when its setting asks for it,
      the trimmed vocabulary only when it is non-empty, the Markdown
      instruction always, and the summary request, when present, last. */
  lemma ClausesMembers(o: PromptOptions)
    ensures var cs := Clauses(o);
      && (Punctuate in cs <==> o.punctuation)
      && (NoPunctuation in cs <==> !o.punctuation)
      && (Diarize in cs <==> o.diarization)
      && (Timestamps in cs <==> o.timestamps)
      && (CensorProfanity in cs <==> o.profanity)
      && (forall w :: Vocabulary(w) in cs <==> w == o.vocabulary && w != [])
      && MarkdownOutput in cs
      && (Summary in cs <==> o.summary)
      && cs[|cs| - 1] == (if o.summary then Summary else MarkdownOutput)
  {
    var cs := Clauses(o);
    assert Punctuate in cs <==> o.punctuation by {
      ClausesMember(o, Punctuate);
      OptionClausesMember(o, Punctuate);
    }
    assert NoPunctuation in cs <==> !o.punctuation by {
      ClausesMember(o, NoPunctuation);
      OptionClausesMember(o, NoPunctuation);
    }
    assert Diarize in cs <==> o.diarization by {
      ClausesMember(o, Diarize);
      OptionClausesMember(o, Diarize);
    }
    assert Timestamps in cs <==> o.timestamps by {
      ClausesMember(o, Timestamps);
      OptionClausesMember(o, Timestamps);
    }
    assert CensorProfanity in cs <==> o.profanity by {
      ClausesMember(o, CensorProfanity);
      OptionClausesMember(o, CensorProfanity);
    }
    assert forall w :: Vocabulary(w) in cs <==> w == o.vocabulary && w != [] by {
      forall w ensures Vocabulary(w) in cs <==> w == o.vocabulary && w != [] {
        ClausesMember(o, Vocabulary(w));
        OptionClausesMember(o, Vocabulary(w));
      }
    }
    assert MarkdownOutput in cs by {
      ClausesMember(o, MarkdownOutput);
      OptionClausesMember(o, MarkdownOutput);
    }
    assert Summary in cs <==> o.summary by {
      ClausesMember(o, Summary);
      OptionClausesMember(o, Summary);
    }
    assert cs[|cs| - 1] == (if o.summary then Summary else MarkdownOutput) by {
      OptionClausesLast(o);
      assert cs[|cs| - 1] == OptionClauses(o)[|OptionClauses(o)| - 1];
    }
  }

  /** A clause of the prompt is the base clause, the punctuation clause or
      one of the option clauses. */
  lemma ClausesMember(o: PromptOptions, x: Clause)
    ensures x in Clauses(o) <==>
      x == Base(o.language) || x == PunctuationClause(o.punctuation) || x in OptionClauses(o)
  {
    var cs := Clauses(o);
    assert cs == [cs[0]] + [cs[1]] + OptionClauses(o);
  }

  lemma OptionClausesMember(o: PromptOptions, x: Clause)
    ensures x in OptionClauses(o) <==>
      || (o.diarization && x == Diarize)
      || (o.timestamps && x == Timestamps)
      || (o.profanity && x == CensorProfanity)
      || (o.vocabulary != [] && x == Vocabulary(o.vocabulary))
      || x == MarkdownOutput
      || (o.summary && x == Summary)
  {
    var tail := Closing(o.summary);
    var t4 := Optional(o.vocabulary != [], Vocabulary(o.vocabulary), tail);
    var t3 := Optional(o.profanity, CensorProfanity, t4);
    var t2 := Optional(o.timestamps, Timestamps, t3);
    OptionalMember(o.diarization, Diarize, t2, x);
    OptionalMember(o.timestamps, Timestamps, t3, x);
    OptionalMember(o.profanity, CensorProfanity, t4, x);
    OptionalMember(o.vocabulary != [], Vocabulary(o.vocabulary), tail, x);
    assert x in tail <==> x == MarkdownOutput || (o.summary && x == Summary);
  }

  lemma OptionClausesLast(o: PromptOptions)
    ensures |OptionClauses(o)| >= 1
    ensures OptionClauses(o)[|OptionClauses(o)| - 1] == (if o.summary then Summary else MarkdownOutput)
  {
    var tail := Closing(o.summary);
    var t4 := Optional(o.vocabulary != [], Vocabulary(o.vocabulary), tail);
    var t3 := Optional(o.profanity, CensorProfanity, t4);
    var t2 := Optional(o.timestamps, Timestamps, t3);
    OptionalLast(o.vocabulary != [], Vocabulary(o.vocabulary), tail);
    OptionalLast(o.profanity, CensorProfanity, t4);
    OptionalLast(o.timestamps, Timestamps, t3);
    OptionalLast(o.diarization, Diarize, t2);
  }

  /** The clauses appear in the fixed order, each kind at most once: in
      particular the Markdown instruction follows every option clause and
      precedes the summary request. */
  lemma ClausesInOrder(o: PromptOptions)
    ensures InOrder(Clauses(o))
  {
    OptionClausesInOrder(o);
    var t1 := OptionClauses(o);
    var cs := [Base(o.language), PunctuationClause(o.punctuation)] + t1;
    assert forall i :: 2 <= i < |cs| ==> cs[i] == t1[i - 2];
    assert InOrder(cs);
  }

  lemma OptionClausesInOrder(o: PromptOptions)
    ensures InOrder(OptionClauses(o)) && RanksAbove(OptionClauses(o), 1)
  {
    var tail := Closing(o.summary);
    var t4 := Optional(o.vocabulary != [], Vocabulary(o.vocabulary), tail);
    var t3 := Optional(o.profanity, CensorProfanity, t4);
    var t2 := Optional(o.timestamps, Timestamps, t3);
    assert InOrder(t4) && RanksAbove(t4, 4) by {
      ClosingInOrder(o.summary);
      OptionalInOrder(o.vocabulary != [], Vocabulary(o.vocabulary), tail);
    }
    assert InOrder(t3) && RanksAbove(t3, 3) by {
      OptionalInOrder(o.profanity, CensorProfanity, t4);
    }
    assert InOrder(t2) && RanksAbove(t2, 2) by {
      OptionalInOrder(o.timestamps, Timestamps, t3);
    }
    OptionalInOrder(o.diarization, Diarize, t2);
  }

  lemma ClosingInOrder(summary: bool)
    ensures InOrder(Closing(summary)) && RanksAbove(Closing(summary), 5)
  {
  }

  /** The clause texts, one per clause. */
  function Texts(w: Wording, cs: seq<Clause>): (ts: seq<string>)
    ensures |ts| == |cs| && forall i :: 0 <= i < |cs| ==> ts[i] == Text(w, cs[i])
  {
    seq(|cs|, i requires 0 <= i < |cs| => Text(w, cs[i]))
  }

  /** Concatenation of the clause texts. */
  function Render(w: Wording, cs: seq<Clause>): string {
    Concat(Texts(w, cs))
  }

  /** `buildPrompt(settings)` */
  function BuildPrompt(s: AppSettings): string {
    Render(Words, Clauses(OptionsOf(s)))
  }

  // ---------------------------------------------------------------------
  // Reading the options back from a clause list: the partner of Clauses.

  /** Consumes `c` if it heads the list. */
  function Take(cs: seq<Clause>, c: Clause): (bool, seq<Clause>) {
    if |cs| > 0 && cs[0] == c then (true, cs[1..]) else (false, cs)
  }

  /** Consumes a vocabulary clause with non-empty words if it heads the list;
      an empty vocabulary clause is never emitted and is not accepted. */
  function TakeVocabulary(cs: seq<Clause>): (string, seq<Clause>) {
    if |cs| > 0 && cs[0].Vocabulary? && cs[0].words != [] then (cs[0].words, cs[1..]) else ([], cs)
  }

  /** Parses a clause list in the fixed order, one stage per optional
      clause; fails on anything else. */
  function Decode(cs: seq<Clause>): Option<PromptOptions> {
    if |cs| < 2 || !cs[0].Base? || !(cs[1] == Punctuate || cs[1] == NoPunctuation) then None
    else DecodeDiarize(cs[2..], PromptOptions(cs[0].language, cs[1] == Punctuate, false, false, false, [], false))
  }

  function DecodeDiarize(cs: seq<Clause>, acc: PromptOptions): Option<PromptOptions> {
    var (b, rest) := Take(cs, Diarize);
    DecodeTimestamps(rest, acc.(diarization := b))
  }

  function DecodeTimestamps(cs: seq<Clause>, acc: PromptOptions): Option<PromptOptions> {
    var (b, rest) := Take(cs, Timestamps);
    DecodeProfanity(rest, acc.(timestamps := b))
  }

  function DecodeProfanity(cs: seq<Clause>, acc: PromptOptions): Option<PromptOptions> {
    var (b, rest) := Take(cs, CensorProfanity);
    DecodeVocabulary(rest, acc.(profanity := b))
  }

  function DecodeVocabulary(cs: seq<Clause>, acc: PromptOptions): Option<PromptOptions> {
    var (v, rest) := TakeVocabulary(cs);
    DecodeClosing(rest, acc.(vocabulary := v))
  }

  function DecodeClosing(cs: seq<Clause>, acc: PromptOptions): Option<PromptOptions> {
    if cs == [MarkdownOutput] then Some(acc.(summary := false))
    else if cs == [MarkdownOutput, Summary] then Some(acc.(summary := true))
    else None
  }

  lemma TakeOptional(b: bool, c: Clause, rest: seq<Clause>)
    requires |rest| > 0 && rest[0] != c
    ensures Take(Optional(b, c, rest), c) == (b, rest)
  {
    if b { assert Optional(b, c, rest)[1..] == rest; }
  }

  lemma TakeInverse(cs: seq<Clause>, c: Clause)
    ensures Optional(Take(cs, c).0, c, Take(cs, c).1) == cs
  {
    if |cs| > 0 && cs[0] == c {
      assert [c] + cs[1..] == cs;
    }
  }

  lemma TakeVocabularyInverse(cs: seq<Clause>)
    ensures var (v, rest) := TakeVocabulary(cs); Optional(v != [], Vocabulary(v), rest) == cs
  {
    if |cs| > 0 && cs[0].Vocabulary? && cs[0].words != [] {
      assert [cs[0]] + cs[1..] == cs;
    }
  }

  /** The head of an optional stage is its own clause or the head of the rest. */
  lemma OptionalHead(b: bool, c: Clause, rest: seq<Clause>)
    requires |rest| > 0
    ensures |Optional(b, c, rest)| > 0
    ensures Optional(b, c, rest)[0] == if b then c else rest[0]
  {
  }

  // The stage lemmas: each stage consumes exactly the clauses its part of
  // Clauses emits.

  lemma DecodeVocabularyStage(o: PromptOptions, acc: PromptOptions)
    requires acc.(vocabulary := o.vocabulary, summary := o.summary) == o
    ensures DecodeVocabulary(Optional(o.vocabulary != [], Vocabulary(o.vocabulary), Closing(o.summary)), acc) == Some(o)
  {
    var tail := Closing(o.summary);
    assert TakeVocabulary(Optional(o.vocabulary != [], Vocabulary(o.vocabulary), tail)) == (o.vocabulary, tail);
  }

  lemma DecodeProfanityStage(o: PromptOptions, acc: PromptOptions)
    requires acc.(profanity := o.profanity, vocabulary := o.vocabulary, summary := o.summary) == o
    ensures DecodeProfanity(Optional(o.profanity, CensorProfanity,
              Optional(o.vocabulary != [], Vocabulary(o.vocabulary), Closing(o.summary))), acc) == Some(o)
  {
    var t4 := Optional(o.vocabulary != [], Vocabulary(o.vocabulary), Closing(o.summary));
    OptionalHead(o.vocabulary != [], Vocabulary(o.vocabulary), Closing(o.summary));
    TakeOptional(o.profanity, CensorProfanity, t4);
    DecodeVocabularyStage(o, acc.(profanity := o.profanity));
  }

  lemma DecodeTimestampsStage(o: PromptOptions, acc: PromptOptions)
    requires acc.(timestamps := o.timestamps, profanity := o.profanity,
                  vocabulary := o.vocabulary, summary := o.summary) == o
    ensures DecodeTimestamps(Optional(o.timestamps, Timestamps, Optional(o.profanity, CensorProfanity,
              Optional(o.vocabulary != [], Vocabulary(o.vocabulary), Closing(o.summary)))), acc) == Some(o)
  {
    var t4 := Optional(o.vocabulary != [], Vocabulary(o.vocabulary), Closing(o.summary));
    var t3 := Optional(o.profanity, CensorProfanity, t4);
    OptionalHead(o.vocabulary != [], Vocabulary(o.vocabulary), Closing(o.summary));
    OptionalHead(o.profanity, CensorProfanity, t4);
    TakeOptional(o.timestamps, Timestamps, t3);
    DecodeProfanityStage(o, acc.(timestamps := o.timestamps));
  }

  lemma DecodeDiarizeStage(o: PromptOptions, acc: PromptOptions)
    requires acc.(diarization := o.diarization, timestamps := o.timestamps, profanity := o.profanity,
                  vocabulary := o.vocabulary, summary := o.summary) == o
    ensures DecodeDiarize(OptionClauses(o), acc) == Some(o)
  {
    var t4 := Optional(o.vocabulary != [], Vocabulary(o.vocabulary), Closing(o.summary));
    var t3 := Optional(o.profanity, CensorProfanity, t4);
    var t2 := Optional(o.timestamps, Timestamps, t3);
    OptionalHead(o.vocabulary != [], Vocabulary(o.vocabulary), Closing(o.summary));
    OptionalHead(o.profanity, CensorProfanity, t4);
    OptionalHead(o.timestamps, Timestamps, t3);
    TakeOptional(o.diarization, Diarize, t2);
    DecodeTimestampsStage(o, acc.(diarization := o.diarization));
  }

  /** Every option is recovered from the clauses emitted for it. */
  lemma DecodeClauses(o: PromptOptions)
    ensures Decode(Clauses(o)) == Some(o)
  {
    var cs := Clauses(o);
    assert cs[2..] == OptionClauses(o);
    DecodeDiarizeStage(o, PromptOptions(o.language, o.punctuation, false, false, false, [], false));
  }

  lemma DecodeClosingSound(cs: seq<Clause>, acc: PromptOptions, o: PromptOptions)
    requires DecodeClosing(cs, acc) == Some(o)
    ensures cs == Closing(o.summary) && o == acc.(summary := o.summary)
  {
  }

  lemma DecodeVocabularySound(cs: seq<Clause>, acc: PromptOptions, o: PromptOptions)
    requires DecodeVocabulary(cs, acc) == Some(o)
    ensures cs == Optional(o.vocabulary != [], Vocabulary(o.vocabulary), Closing(o.summary))
    ensures o == acc.(vocabulary := o.vocabulary, summary := o.summary)
  {
    var (v, rest) := TakeVocabulary(cs);
    DecodeClosingSound(rest, acc.(vocabulary := v), o);
    TakeVocabularyInverse(cs);
  }

  lemma DecodeProfanitySound(cs: seq<Clause>, acc: PromptOptions, o: PromptOptions)
    requires DecodeProfanity(cs, acc) == Some(o)
    ensures cs == Optional(o.profanity, CensorProfanity,
                    Optional(o.vocabulary != [], Vocabulary(o.vocabulary), Closing(o.summary)))
    ensures o == acc.(profanity := o.profanity, vocabulary := o.vocabulary, summary := o.summary)
  {
    var (b, rest) := Take(cs, CensorProfanity);
    DecodeVocabularySound(rest, acc.(profanity := b), o);
    TakeInverse(cs, CensorProfanity);
  }

  lemma DecodeTimestampsSound(cs: seq<Clause>, acc: PromptOptions, o: PromptOptions)
    requires DecodeTimestamps(cs, acc) == Some(o)
    ensures cs == Optional(o.timestamps, Timestamps, Optional(o.profanity, CensorProfanity,
                    Optional(o.vocabulary != [], Vocabulary(o.vocabulary), Closing(o.summary))))
    ensures o == acc.(timestamps := o.timestamps, profanity := o.profanity,
                      vocabulary := o.vocabulary, summary := o.summary)
  {
    var (b, rest) := Take(cs, Timestamps);
    DecodeProfanitySound(rest, acc.(timestamps := b), o);
    TakeInverse(cs, Timestamps);
  }

  lemma DecodeDiarizeSound(cs: seq<Clause>, acc: PromptOptions, o: PromptOptions)
    requires DecodeDiarize(cs, acc) == Some(o)
    ensures cs == OptionClauses(o)
    ensures o == acc.(diarization := o.diarization, timestamps := o.timestamps, profanity := o.profanity,
                      vocabulary := o.vocabulary, summary := o.summary)
  {
    var (b, rest) := Take(cs, Diarize);
    DecodeTimestampsSound(rest, acc.(diarization := b), o);
    TakeInverse(cs, Diarize);
  }

  /** Decode accepts exactly the lists Clauses emits. */
  lemma DecodeSound(cs: seq<Clause>, o: PromptOptions)
    requires Decode(cs) == Some(o)
    ensures Clauses(o) == cs
  {
    var acc := PromptOptions(cs[0].language, cs[1] == Punctuate, false, false, false, [], false);
    DecodeDiarizeSound(cs[2..], acc, o);
    assert cs == [cs[0], cs[1]] + cs[2..];
  }

  /** Two option records give the same clause list only if they are equal. */
  lemma ClausesInjective(a: PromptOptions, b: PromptOptions)
    requires Clauses(a) == Clauses(b)
    ensures a == b
  {
    DecodeClauses(a);
    DecodeClauses(b);
  }

  // ---------------------------------------------------------------------
  // From the clause list to the prompt string.

  lemma RenderAppend(w: Wording, a: seq<Clause>, b: seq<Clause>)
    ensures Render(w, a + b) == Render(w, a) + Render(w, b)
  {
    assert Texts(w, a + b) == Texts(w, a) + Texts(w, b);
    ConcatAppend(Texts(w, a), Texts(w, b));
  }

  /** The text of every clause in the list occurs in the rendered prompt. */
  lemma RenderContains(w: Wording, cs: seq<Clause>, i: nat)
    requires i < |cs|
    ensures Contains(Render(w, cs), Text(w, cs[i]))
  {
    ConcatContains(Texts(w, cs), i);
  }

  lemma RenderStartsWith(w: Wording, cs: seq<Clause>)
    requires |cs| > 0
    ensures StartsWith(Render(w, cs), Text(w, cs[0]))
  {
    assert cs == [cs[0]] + cs[1..];
    RenderAppend(w, [cs[0]], cs[1..]);
  }

  lemma RenderPair(w: Wording, a: Clause, b: Clause)
    ensures Render(w, [a, b]) == Text(w, a) + Text(w, b)
  {
    var ts := Texts(w, [a, b]);
    assert ts == [Text(w, a), Text(w, b)];
    ConcatPair(Text(w, a), Text(w, b));
  }

  lemma RenderSingle(w: Wording, a: Clause)
    ensures Render(w, [a]) == Text(w, a)
  {
    var ts := Texts(w, [a]);
    assert ts == [Text(w, a)];
    ConcatSingle(Text(w, a));
  }

  /** The prompt opens with the base sentence naming the language. */
  lemma PromptStartsWithBase(s: AppSettings)
    ensures StartsWith(BuildPrompt(s), Words.basePrefix + s.language + ".")
  {
    RenderStartsWith(Words, Clauses(OptionsOf(s)));
  }

  /** An optional clause in front keeps the ending of the rendered rest. */
  lemma RenderOptionalEnds(w: Wording, b: bool, c: Clause, rest: seq<Clause>, suffix: string)
    requires EndsWith(Render(w, rest), suffix)
    ensures EndsWith(Render(w, Optional(b, c, rest)), suffix)
  {
    if b {
      RenderAppend(w, [c], rest);
      EndsWithPrepend(Render(w, [c]), Render(w, rest), suffix);
    }
  }

  /** The rendered prompt ends with the rendered closing clauses. */
  lemma RenderEndsWithClosing(w: Wording, o: PromptOptions)
    ensures EndsWith(Render(w, Clauses(o)), Render(w, Closing(o.summary)))
  {
    var tail := Closing(o.summary);
    var t4 := Optional(o.vocabulary != [], Vocabulary(o.vocabulary), tail);
    var t3 := Optional(o.profanity, CensorProfanity, t4);
    var t2 := Optional(o.timestamps, Timestamps, t3);
    var t1 := Optional(o.diarization, Diarize, t2);
    var x := Render(w, tail);
    assert EndsWith(Render(w, t1), x) by {
      assert EndsWith(x, x);
      RenderOptionalEnds(w, o.vocabulary != [], Vocabulary(o.vocabulary), tail, x);
      RenderOptionalEnds(w, o.profanity, CensorProfanity, t4, x);
      RenderOptionalEnds(w, o.timestamps, Timestamps, t3, x);
      RenderOptionalEnds(w, o.diarization, Diarize, t2, x);
    }
    var head := [Base(o.language), PunctuationClause(o.punctuation)];
    RenderAppend(w, head, t1);
    EndsWithPrepend(Render(w, head), Render(w, t1), x);
  }

  /** The prompt ends with the summary request when summarisation is on and
      with the Markdown instruction otherwise; with summarisation on, the
      Markdown instruction comes right before the summary request. */
  lemma PromptEnding(s: AppSettings)
    ensures s.enableSummarization ==> EndsWith(BuildPrompt(s), Words.markdown + Words.summary)
    ensures !s.enableSummarization ==> EndsWith(BuildPrompt(s), Words.markdown)
  {
    var o := OptionsOf(s);
    RenderEndsWithClosing(Words, o);
    ClosingText(Words, o.summary);
  }

  /** The rendered closing clauses. */
  lemma ClosingText(w: Wording, summary: bool)
    ensures Render(w, Closing(summary)) == if summary then w.markdown + w.summary else w.markdown
  {
    if summary {
      assert Closing(summary) == [MarkdownOutput, Summary];
      RenderPair(w, MarkdownOutput, Summary);
    } else {
      assert Closing(summary) == [MarkdownOutput];
      RenderSingle(w, MarkdownOutput);
    }
  }

  /** The text of a clause that is in the list occurs in the rendering. */
  lemma RenderHas(w: Wording, cs: seq<Clause>, c: Clause)
    requires c in cs
    ensures Contains(Render(w, cs), Text(w, c))
  {
    var i := Find(cs, c);
    RenderContains(w, cs, i);
  }

  /** Every emitted clause text is part of the prompt. */
  lemma PromptContainsClauses(s: AppSettings, c: Clause)
    requires c in Clauses(OptionsOf(s))
    ensures Contains(BuildPrompt(s), Text(Words, c))
  {
    RenderHas(Words, Clauses(OptionsOf(s)), c);
  }

  /** The position of a clause in a list that has it. */
  function Find(cs: seq<Clause>, c: Clause): (i: nat)
    requires c in cs
    ensures i < |cs| && cs[i] == c
  {
    if cs[0] == c then 0 else 1 + Find(cs[1..], c)
  }

  /** Whatever the wording, the rendering carries the sentence of every
      clause the options switch on. */
  lemma RenderContainsEnabled(w: Wording, o: PromptOptions)
    ensures var r := Render(w, Clauses(o));
      && Contains(r, if o.punctuation then w.punctuate else w.noPunctuation)
      && (o.diarization ==> Contains(r, w.diarize))
      && (o.timestamps ==> Contains(r, w.timestamps))
      && (o.profanity ==> Contains(r, w.censor))
      && (o.vocabulary != [] ==> Contains(r, w.vocabularyPrefix + o.vocabulary + "."))
      && Contains(r, w.markdown)
  {
    var cs := Clauses(o);
    ClausesMembers(o);
    RenderHas(w, cs, PunctuationClause(o.punctuation));
    RenderHas(w, cs, MarkdownOutput);
    if o.diarization { RenderHas(w, cs, Diarize); }
    if o.timestamps { RenderHas(w, cs, Timestamps); }
    if o.profanity { RenderHas(w, cs, CensorProfanity); }
    if o.vocabulary != [] { RenderHas(w, cs, Vocabulary(o.vocabulary)); }
  }

  /** So the prompt carries the punctuation sentence of the right polarity,
      each enabled option's sentence, the trimmed vocabulary when there is
      any, and the Markdown instruction. */
  lemma PromptContainsEnabledClauses(s: AppSettings)
    ensures Contains(BuildPrompt(s), if s.enablePunctuation then Words.punctuate else Words.noPunctuation)
    ensures s.enableDiarization ==> Contains(BuildPrompt(s), Words.diarize)
    ensures s.addTimestamps ==> Contains(BuildPrompt(s), Words.timestamps)
    ensures s.filterProfanity ==> Contains(BuildPrompt(s), Words.censor)
    ensures Trim(s.customVocabulary) != [] ==>
              Contains(BuildPrompt(s), Words.vocabularyPrefix + Trim(s.customVocabulary) + ".")
    ensures Contains(BuildPrompt(s), Words.markdown)
  {
    RenderContainsEnabled(Words, OptionsOf(s));
  }

  /** Vocabulary that trims to the same text gives the same prompt; in
      particular whitespace-only vocabulary gives the prompt of an empty one. */
  lemma VocabularyOnlyTrimmedMatters(s: AppSettings, v: string)
    requires Trim(v) == Trim(s.customVocabulary)
    ensures BuildPrompt(s.(customVocabulary := v)) == BuildPrompt(s)
  {
  }

  lemma WhitespaceVocabularyIgnored(s: AppSettings)
    requires AllWhitespace(s.customVocabulary)
    ensures BuildPrompt(s) == BuildPrompt(s.(customVocabulary := []))
    ensures forall w :: Vocabulary(w) !in Clauses(OptionsOf(s))
  {
    TrimEmptyIff(s.customVocabulary);
    TrimEmptyIff([]);
    ClausesMembers(OptionsOf(s));
    VocabularyOnlyTrimmedMatters(s.(customVocabulary := []), s.customVocabulary);
  }
}
