/** The tokenize processor's `process`: the check on the input kind, the
    choice between the pretokenized path, spaCy and the tokenizer model, and
    the text handed to the model (with its Vietnamese paragraph handling).
    spaCy and the model's prediction step are parameters: their code is not
    part of this model. */
module TokenizeProcessor {
  import opened Wrappers
  import opened PyStr
  import opened PretokenizedBuilder

  /** `TokenizeProcessor.MAX_SEQ_LENGTH_DEFAULT`. */
  const MaxSeqLengthDefault := 1000

  /** The blank line that separates paragraphs. */
  const ParagraphBreak := "\n\n"

  /** The configuration entries `process` reads; `maxSeqlen` is `None` when
      the entry is absent. */
  datatype Config = Config(pretokenized: bool, withSpacy: bool, noSsplit: bool, lang: string, maxSeqlen: Option<int>)

  /** The four ways `process` can go. */
  datatype Strategy = Pretokenized | Spacy | ModelVi | ModelOther

  /** What `process` raises. */
  datatype Error =
    | InvalidInputKind  // the assertion on the input kind fails
    | NotAString        // `document.split` on a list, on the Vietnamese path
    | JoinOfNonString   // `'\n\n'.join` over a list holding a non-string
    | ProbUnbound       // `prob` read before it was ever assigned

  /** What the batches are built from: the text itself, or the paragraph
      text and its placeholder labels, which are cut into chunks first. */
  datatype BatchInput = InputText(text: string) | ParagraphChunks(text: string, labels: string)

  /** Everything the prediction step receives besides the trained model and
      the vocabulary. */
  datatype ModelRequest = ModelRequest(batches: BatchInput, maxSeqlen: int, origText: string, noSsplit: bool)

  /** What the prediction step returns that `process` keeps. */
  datatype Prediction<P> = Prediction(sentences: seq<seq<TokenRecord>>, prob: P)

  /** The pipeline's document: the sentences, the raw text (the input value
      itself on the model path) and the probabilities, if any. */
  datatype Document<P> = Document(sentences: seq<seq<TokenRecord>>, rawText: Input, prob: Option<P>)

  /** The assertion at the top of `process`. */
  predicate InputKindAccepted(cfg: Config, input: Input) {
    input.Text? || cfg.pretokenized || cfg.noSsplit
  }

  /** Which way `process` goes: the input-kind check first, then
      `pretokenized`, then `with_spacy`, then the model, Vietnamese or not. */
  function Classify(cfg: Config, input: Input): (r: Result<Strategy, Error>)
    ensures r.Failure? <==> !InputKindAccepted(cfg, input)
    ensures r.Failure? ==> r.error == InvalidInputKind
    ensures r == Success(Pretokenized) <==> InputKindAccepted(cfg, input) && cfg.pretokenized
    ensures r == Success(Spacy) <==> InputKindAccepted(cfg, input) && !cfg.pretokenized && cfg.withSpacy
    ensures r.Success? && r.value in {ModelVi, ModelOther} ==>
      !cfg.pretokenized && !cfg.withSpacy && (r.value == ModelVi <==> cfg.lang == "vi")
  {
    if !InputKindAccepted(cfg, input) then Failure(InvalidInputKind)
    else if cfg.pretokenized then Success(Pretokenized)
    else if cfg.withSpacy then Success(Spacy)
    else if cfg.lang == "vi" then Success(ModelVi)
    else Success(ModelOther)
  }

  /** The `max_seqlen` entry, or the default when it is absent. */
  function MaxSeqlen(cfg: Config): (n: int)
    ensures cfg.maxSeqlen.None? ==> n == MaxSeqLengthDefault
    ensures cfg.maxSeqlen.Some? ==> n == cfg.maxSeqlen.value
  {
    cfg.maxSeqlen.GetOr(MaxSeqLengthDefault)
  }

  // ---------------------------------------------------------------------
  // The Vietnamese paragraph text and its placeholder labels

  function Zeros(n: nat): (z: string)
    ensures |z| == n && forall i :: 0 <= i < n ==> z[i] == '0'
  {
    seq(n, _ => '0')
  }

  /** The text of the Vietnamese path: the document split into paragraphs,
      joined back and right-stripped, which is the document right-stripped. */
  function ViText(document: string): (text: string)
    ensures text == RStrip(document, AnyWhitespace)
  {
    JoinSplit(document, ParagraphBreak);
    RStrip(Join(Split(document, ParagraphBreak), ParagraphBreak), AnyWhitespace)
  }

  /** Joining all-zero masks as long as the parts gives a string as long as
      the join of the parts, with a separator character wherever it is not
      `'0'`. */
  lemma {:induction false} MasksAlign(parts: seq<string>, masks: seq<string>, sep: string, c: char)
    requires |masks| == |parts|
    requires forall i :: 0 <= i < |parts| ==> |masks[i]| == |parts[i]| && AllIn(masks[i], Chars({'0'}))
    requires AllIn(sep, Chars({c}))
    ensures |Join(masks, sep)| == |Join(parts, sep)|
    ensures forall p :: 0 <= p < |Join(masks, sep)| ==>
      Join(masks, sep)[p] == '0' || (Join(masks, sep)[p] == c && Join(parts, sep)[p] == c)
    decreases |parts|
  {
    var n := |parts|;
    if n > 1 {
      var ps, qs := parts[..n - 1], masks[..n - 1];
      MasksAlign(ps, qs, sep, c);
      JoinLength(qs, sep);
      JoinLength(ps, sep);
      var jp, jq := Join(parts, sep), Join(masks, sep);
      var l := |Join(qs, sep)|;
      assert jq == Join(qs, sep) + sep + masks[n - 1];
      assert jp == Join(ps, sep) + sep + parts[n - 1];
      forall p | 0 <= p < |jq| ensures jq[p] == '0' || (jq[p] == c && jp[p] == c) {
        if p < l {
          assert jq[p] == Join(qs, sep)[p] && jp[p] == Join(ps, sep)[p];
        } else if p < l + |sep| {
          assert jq[p] == sep[p - l] == jp[p];
        } else {
          assert jq[p] == masks[n - 1][p - l - |sep|];
        }
      }
    }
  }

  /** The placeholder labels of the Vietnamese path: one `'0'` per
      character of every paragraph, the paragraph breaks kept. */
  function DummyLabels(text: string): (labels: string)
    ensures |labels| == |text|
    ensures forall i :: 0 <= i < |labels| ==> labels[i] == '0' || (labels[i] == '\n' && text[i] == '\n')
  {
    var paragraphs := Split(text, ParagraphBreak);
    var masks := seq(|paragraphs|, i requires 0 <= i < |paragraphs| => Zeros(|paragraphs[i]|));
    JoinSplit(text, ParagraphBreak);
    MasksAlign(paragraphs, masks, ParagraphBreak, '\n');
    Join(masks, ParagraphBreak)
  }

  // ---------------------------------------------------------------------
  // The model path

  /** The strings of a list input whose elements are all strings. */
  function Strings(items: seq<Item>): (r: seq<string>)
    requires forall i :: 0 <= i < |items| ==> items[i].Str?
    ensures |r| == |items| && forall i :: 0 <= i < |items| ==> r[i] == items[i].s
  {
    seq(|items|, i requires 0 <= i < |items| => items[i].s)
  }

  /** The request the model path builds from the input: on the Vietnamese
      path from the paragraph text and its labels, otherwise from the input
      text, a list of strings being joined with blank lines first. */
  function ModelRequestFor(cfg: Config, input: Input): (r: Result<ModelRequest, Error>)
    ensures r.Success? ==> r.value.maxSeqlen == MaxSeqlen(cfg) && r.value.noSsplit == cfg.noSsplit
    ensures cfg.lang == "vi" ==> (r.Failure? <==> input.List?)
    ensures cfg.lang == "vi" && input.Text? ==>
      r.value.origText == input.text &&
      r.value.batches.ParagraphChunks? &&
      r.value.batches.text == RStrip(input.text, AnyWhitespace) &&
      |r.value.batches.labels| == |r.value.batches.text| &&
      r.value.batches.labels == DummyLabels(r.value.batches.text)
    ensures cfg.lang != "vi" && r.Success? ==> r.value.batches == InputText(r.value.origText)
    ensures cfg.lang != "vi" && input.Text? ==> r.Success? && r.value.origText == input.text
    ensures cfg.lang != "vi" && input.List? ==>
      (r.Success? <==> forall i :: 0 <= i < |input.items| ==> input.items[i].Str?)
    ensures cfg.lang != "vi" && input.List? && r.Success? ==>
      r.value.origText == Join(Strings(input.items), ParagraphBreak)
  {
    if cfg.lang == "vi" then
      match input
      case List(_) => Failure(NotAString)
      case Text(document) =>
        var text := ViText(document);
        Success(ModelRequest(ParagraphChunks(text, DummyLabels(text)), MaxSeqlen(cfg), document, cfg.noSsplit))
    else
      match input
      case Text(document) =>
        Success(ModelRequest(InputText(document), MaxSeqlen(cfg), document, cfg.noSsplit))
      case List(items) =>
        if forall i :: 0 <= i < |items| ==> items[i].Str? then
          var document := Join(Strings(items), ParagraphBreak);
          Success(ModelRequest(InputText(document), MaxSeqlen(cfg), document, cfg.noSsplit))
        else Failure(JoinOfNonString)
  }

  // ---------------------------------------------------------------------
  // process

  /** `process` with the probabilities left unset on the pretokenized path. */
  function Process<P>(cfg: Config, input: Input, spacy: Input -> Document<P>, predict: ModelRequest -> Prediction<P>)
    : (r: Result<Document<P>, Error>)
    ensures r == Failure(InvalidInputKind) <==> !InputKindAccepted(cfg, input)
    ensures InputKindAccepted(cfg, input) && cfg.pretokenized ==>
      r == Success(Document(Annotate(SentencesOf(input)), Text(RawText(SentencesOf(input))), None))
    ensures InputKindAccepted(cfg, input) && !cfg.pretokenized && cfg.withSpacy ==> r == Success(spacy(input))
    ensures InputKindAccepted(cfg, input) && !cfg.pretokenized && !cfg.withSpacy ==>
      r == match ModelRequestFor(cfg, input)
           case Failure(e) => Failure(e)
           case Success(request) =>
             Success(Document(predict(request).sentences, input, Some(predict(request).prob)))
  {
    match Classify(cfg, input)
    case Failure(e) => Failure(e)
    case Success(Pretokenized) =>
      var sentences := SentencesOf(input);
      Success(Document(Annotate(sentences), Text(RawText(sentences)), None))
    case Success(Spacy) => Success(spacy(input))
    case Success(_) =>
      match ModelRequestFor(cfg, input)
      case Failure(e) => Failure(e)
      case Success(request) =>
        var prediction := predict(request);
        Success(Document(prediction.sentences, input, Some(prediction.prob)))
  }

  /** `process` as written: on the pretokenized path the final line reads
      `prob`, which only the model path assigns, so the call raises. */
  function ProcessAsWritten<P>(cfg: Config, input: Input, spacy: Input -> Document<P>, predict: ModelRequest -> Prediction<P>)
    : (r: Result<Document<P>, Error>)
    ensures InputKindAccepted(cfg, input) && cfg.pretokenized ==> r == Failure(ProbUnbound)
    ensures !(InputKindAccepted(cfg, input) && cfg.pretokenized) ==> r == Process(cfg, input, spacy, predict)
  {
    if Classify(cfg, input) == Success(Pretokenized) then Failure(ProbUnbound)
    else Process(cfg, input, spacy, predict)
  }

  // ---------------------------------------------------------------------
  // Properties of the dispatch

  /** `pretokenized` wins over `with_spacy`, and neither the language nor
      spaCy matters on that path. */
  lemma {:induction false} PretokenizedBeatsSpacy<P>(cfg: Config, input: Input, withSpacy: bool, lang: string,
                                  spacy: Input -> Document<P>, predict: ModelRequest -> Prediction<P>)
    requires cfg.pretokenized
    ensures Process(cfg.(withSpacy := withSpacy, lang := lang), input, spacy, predict)
         == Process(cfg, input, spacy, predict)
    ensures Process(cfg, input, spacy, predict).Success?
  {
  }

  /** On the model path the raw text of the document is the input value
      itself, even when a list was joined into one text for the model. */
  lemma {:induction false} ModelPathKeepsInput<P>(cfg: Config, input: Input, spacy: Input -> Document<P>, predict: ModelRequest -> Prediction<P>)
    requires !cfg.pretokenized && !cfg.withSpacy
    requires Process(cfg, input, spacy, predict).Success?
    ensures Process(cfg, input, spacy, predict).value.rawText == input
    ensures Process(cfg, input, spacy, predict).value.prob.Some?
  {
  }

  /** A list of strings on the non-Vietnamese model path reaches the model
      as one text, its elements separated by blank lines. */
  lemma {:induction false} ListJoinedForModel(cfg: Config, items: seq<Item>)
    requires cfg.lang != "vi"
    requires forall i :: 0 <= i < |items| ==> items[i].Str?
    ensures ModelRequestFor(cfg, List(items)).Success?
    ensures ModelRequestFor(cfg, List(items)).value.origText == Join(Strings(items), ParagraphBreak)
    ensures ModelRequestFor(cfg, List(items)).value.batches == InputText(Join(Strings(items), ParagraphBreak))
    ensures items != [] ==>
      |Join(Strings(items), ParagraphBreak)| + |ParagraphBreak| == Width(Strings(items), |ParagraphBreak|)
  {
    JoinLength(Strings(items), ParagraphBreak);
  }

  /** In the text a list of strings becomes, a blank line follows every
      string but the last. */
  lemma {:induction false} BlankLinesBetweenItems(strings: seq<string>)
    ensures forall i :: 0 <= i < |strings| - 1 ==>
      var text := Join(strings, ParagraphBreak);
      var after := Width(strings[..i], 2) + |strings[i]|;
      after + 2 <= |text| && text[after..after + 2] == "\n\n"
  {
    SeparatorsOfJoin(strings, ParagraphBreak);
  }

  /** The pretokenized path of `process` as written raises for every input
      that passes the input-kind check, such as "Hello world\nFoo", while
      the corrected `process` returns a document. */
  lemma {:induction false} PretokenizedRaisesAsWritten<P>(spacy: Input -> Document<P>, predict: ModelRequest -> Prediction<P>)
    ensures var cfg := Config(true, false, false, "en", None);
      ProcessAsWritten(cfg, Text("Hello world\nFoo"), spacy, predict) == Failure(ProbUnbound) &&
      Process(cfg, Text("Hello world\nFoo"), spacy, predict).Success?
  {
  }
}
