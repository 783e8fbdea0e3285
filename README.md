# Stanza tokenize processor, modelled in Dafny

This project models the assembly logic of stanza's `TokenizeProcessor`
(`stanza/pipeline/tokenize_processor.py`). It covers three pieces:

- **The pretokenized path** (`process_pre_tokenized_text`). It takes either a
  string with one sentence per line and whitespace-separated tokens, or a list
  of token lists. It numbers the tokens of every sentence from 1 and walks a
  running character offset (`idx`) through the document. Each token gets a
  `start_char=…|end_char=…` annotation. The raw text is rebuilt in two
  steps: each sentence's tokens are joined with single spaces, and the
  sentence texts are then joined with single spaces, so an empty sentence
  leaves an extra space.
- **The dispatch in `process`**. This is the input-kind assertion followed by
  a choice between the pretokenized path, spaCy and the tokenizer model.
- **The text handed to the model**. On the Vietnamese path this is the
  paragraph text and its all-zero placeholder labels. On every other path it
  is the input text, where a list of strings is first joined with blank lines.

The model is split into modules:

- `Wrappers`: `Option` and `Result`.
- `PyStr`: the Python string builtins the code relies on, written out over
  `string`:
  - `str.rstrip`, both with a character set and with no argument;
  - `str.split(sep)`, `str.split()` and `sep.join`;
  - `str(n)` for a non-negative integer.

  Whitespace is the set for which Python's `str.isspace()` holds.
- `PretokenizedBuilder`: the two input forms, the builder method with its
  nested loops and running offset, and the closed forms it is proved against
  (`Annotate`, `StartChar`, `RawText`).
- `PretokenizedFacts`: what the pretokenized output guarantees:
  - the token ids, the annotations and the offset recurrences;
  - where the offsets point in the raw text;
  - the worked examples;
  - what happens when the raw text is read back in.
- `TokenizeProcessor`: the configuration, the strategy choice, the
  Vietnamese text and labels, the model request, and `process` itself.

### How the code behaves

Three behaviours of the code are easy to get wrong, and the model keeps
each of them as written:

- **Offsets drift.** After every sentence the builder adds one more offset
  unit (line 62). The raw text puts only one space between sentences
  (line 63). So the recorded offsets dereference exactly into the raw text
  only up to the end of the first non-empty sentence. Every later token is
  shifted right by the number of non-empty sentences before it
  (`PretokenizedFacts.RawTextDrift`). With no empty sentences, the tokens of
  sentence `k` are shifted by `k`
  (`PretokenizedFacts.RawTextShiftBySentenceIndex`). Examples:
  - `[["A","B"],["C"]]` records C at 5..6, while the raw text is `"A B C"`.
  - `"Hello world\nFoo"` reads as `[["Hello","world"],["Foo"]]` and records
    Foo at 13..16, while the raw text is `"Hello world Foo"`.
- **Empty sentences are kept.** In the list form, an empty token list stays
  an empty sentence. In the string form, a line of blanks passes the
  emptiness filter and becomes an empty sentence. Only truly empty lines are
  skipped.
- **Reading the raw text back merges sentences.** When every token is
  non-empty and free of whitespace, as every string input's tokens are, the
  raw text of a document with several sentences comes back as a single
  sentence (`PretokenizedFacts.ReparseRawText`). Re-feeding therefore
  reproduces the records only for one-sentence documents of such tokens
  (`PretokenizedFacts.PretokenizedIdempotent`). A list-form token may hold
  whitespace, and then the raw text can read back differently again: a
  token `"a\nb"` puts a newline into the raw text.

The external collaborators are function parameters of `Process`:

- spaCy maps the input to a document;
- the model's prediction maps a `ModelRequest` to sentences and
  probabilities.

The probabilities are an opaque type parameter `P`.

## Model

| member | source | states |
|---|---|---|
| PyStr.RStrip | stanza/pipeline/tokenize_processor.py:52 | `rstrip` gives a prefix of the string that does not end in a stripped character, and everything it cuts off is made of stripped characters |
| PyStr.IsSpace | stanza/pipeline/tokenize_processor.py:52 | the whitespace `split()` and `rstrip()` use: exactly the characters for which Python's `str.isspace()` holds (tab to carriage return, the four information separators, space, U+0085, U+00A0, U+1680, U+2000 to U+200A, U+2028, U+2029, U+202F, U+205F and U+3000) |
| PyStr.JoinLength | stanza/pipeline/tokenize_processor.py:63 | joining no parts gives the empty string; otherwise the length of the join, plus one separator, is the total width of the parts, each followed by a separator |
| PyStr.JoinAt | stanza/pipeline/tokenize_processor.py:63 | part `k` of a join sits in the joined string right after the first `k` parts and their separators |
| PyStr.Join | stanza/pipeline/tokenize_processor.py:63 | `sep.join(parts)`: the parts in order with `sep` between each two; its layout is stated by `JoinLength`, `JoinAt` and `JoinSeparatorAt`, and it inverts `Split` (`JoinSplit`, `SplitOfJoin`) |
| PyStr.JoinSeparatorAt | stanza/pipeline/tokenize_processor.py:85 | between part `k` and part `k + 1` of a join stands exactly the separator |
| PyStr.PartsOfJoin | stanza/pipeline/tokenize_processor.py:85 | every part of a join sits right after the earlier parts and their separators (helper: the quantified form of `JoinAt`) |
| PyStr.SeparatorsOfJoin | stanza/pipeline/tokenize_processor.py:85 | the separator follows every part of a join but the last (helper: the quantified form of `JoinSeparatorAt`) |
| PyStr.JoinLast | stanza/pipeline/tokenize_processor.py:52 | a join whose last part is non-empty ends in that part's last character (helper) |
| PyStr.Split | stanza/pipeline/tokenize_processor.py:52 | `split(sep)` always yields at least one piece |
| PyStr.JoinSplit | stanza/pipeline/tokenize_processor.py:79 | joining the pieces of `s.split(sep)` with `sep` gives back `s` |
| PyStr.SplitOfJoin | stanza/pipeline/tokenize_processor.py:52 | the converse round trip: splitting a join of parts free of a one-character separator gives the parts back |
| PyStr.SplitWithoutSeparator | stanza/pipeline/tokenize_processor.py:52 | a string that never contains the separator's first character splits into itself alone |
| PyStr.SplitAtFirst | stanza/pipeline/tokenize_processor.py:52 | splitting on a one-character separator cuts at its first occurrence and splits the rest |
| PyStr.WordLen | stanza/pipeline/tokenize_processor.py:52 | the leading run of non-whitespace characters stops at the first whitespace character or at the end |
| PyStr.Words | stanza/pipeline/tokenize_processor.py:52 | `str.split()`: the maximal runs of non-whitespace characters, in order; stated by `WordsAreTokens`, `NoWordsIffAllSpace`, `WordsAroundSpace`, `WordsIgnoreTrailingSpaces` and `WordsOfSpaceJoin` |
| PyStr.WordsAreTokens | stanza/pipeline/tokenize_processor.py:52 | every word `split()` produces is non-empty and free of whitespace |
| PyStr.NoWordsIffAllSpace | stanza/pipeline/tokenize_processor.py:52 | `split()` produces no word exactly when the string is all whitespace |
| PyStr.WordsAroundSpace | stanza/pipeline/tokenize_processor.py:52 | a space between two strings separates their words: the words of `a + " " + b` are the words of `a` followed by the words of `b` |
| PyStr.WordsIgnoreTrailingSpaces | stanza/pipeline/tokenize_processor.py:52 | right-stripping spaces before splitting on whitespace does not change the words |
| PyStr.WordsOfSpaceJoin | stanza/pipeline/tokenize_processor.py:63 | the words of a space-join of strings are the words of each string, in order |
| PyStr.Digits | stanza/pipeline/tokenize_processor.py:59 | `str(n)` is a non-empty string of digits, with no leading zero unless `n` is 0 |
| PyStr.DecimalRoundTrip | stanza/pipeline/tokenize_processor.py:59 | reading `str(n)` back as a decimal numeral gives `n` |
| PyStr.DigitsInjective | stanza/pipeline/tokenize_processor.py:59 | different numbers have different numerals |
| PretokenizedBuilder.ParseLines | stanza/pipeline/tokenize_processor.py:52 | the line comprehension gives at most one sentence per line, and every token in it is non-empty and free of whitespace |
| PretokenizedBuilder.ParseText | stanza/pipeline/tokenize_processor.py:52 | every token of the string form is non-empty and free of whitespace, and the empty string gives no sentence |
| PretokenizedBuilder.SentenceOf | stanza/pipeline/tokenize_processor.py:54-58 | a token list of the list form is its own sentence; a string element is iterated by character, so it is a sentence of one-character tokens |
| PretokenizedBuilder.SentencesOf | stanza/pipeline/tokenize_processor.py:51-54 | a string input gives sentences whose tokens are non-empty and free of whitespace; a list input gives one sentence per element, in order, each read as `SentenceOf` does |
| PretokenizedBuilder.DocumentSpan | stanza/pipeline/tokenize_processor.py:55-62 | the running `idx` after a run of sentences: each token adds its length plus one (line 60) and each sentence one more (line 62); `DocumentSpanStep` and `EmptySentencesSpan` state its steps |
| PretokenizedBuilder.StartChar | stanza/pipeline/tokenize_processor.py:55-60 | the value of `idx` when token `j` of sentence `k` is reached: the span of the earlier sentences plus the earlier tokens of this sentence, each with one separator; `StartCharStep`, `FirstTokenStart` and `NextSentenceStart` state how it advances, and `BuildDocument`'s loop invariants tie the running `idx` to it |
| PretokenizedBuilder.TokenAt | stanza/pipeline/tokenize_processor.py:59 | the record of line 59 for token `j` of sentence `k`: the numeral of `j + 1` as id, the token as text, and the `misc` annotation of its start and end offsets; `TokenSpan` and `SentenceIds` state what it holds |
| PretokenizedBuilder.StripPrefix | stanza/pipeline/tokenize_processor.py:59 | helper of the `misc` reader `ParseMisc`, which the source does not have: a prefix is removed exactly when the string starts with it, and the prefix followed by what is left is the string |
| PretokenizedBuilder.DigitRun | stanza/pipeline/tokenize_processor.py:59 | helper of the `misc` reader `ParseMisc`, which the source does not have: the leading run of digits is all digits and stops at the first non-digit |
| PretokenizedBuilder.Misc | stanza/pipeline/tokenize_processor.py:59 | the f-string of line 59: the start key, the numeral of the start, the end key and the numeral of the end; `MiscRoundTrip` reads both offsets back out of it |
| PretokenizedBuilder.MiscRoundTrip | stanza/pipeline/tokenize_processor.py:59 | the `misc` annotation reads back as exactly the two offsets it was made from |
| PretokenizedBuilder.Annotate | stanza/pipeline/tokenize_processor.py:55-62 | the document has one list of records per sentence, each as long as its sentence |
| PretokenizedBuilder.SentenceTexts | stanza/pipeline/tokenize_processor.py:63 | each sentence text is the single-space join of that sentence's tokens |
| PretokenizedBuilder.RawText | stanza/pipeline/tokenize_processor.py:63 | the single-space join of the sentence texts; where each token lies in it is stated by `RawTextAt` and `RawTextDrift`, and what reading it back gives by `ReparseRawText` |
| PretokenizedBuilder.StartCharStep | stanza/pipeline/tokenize_processor.py:60 | after a token the running offset has advanced by the token's length plus one |
| PretokenizedBuilder.DocumentSpanStep | stanza/pipeline/tokenize_processor.py:62 | after a sentence the running offset advances by one more unit |
| PretokenizedBuilder.BuildDocument | stanza/pipeline/tokenize_processor.py:55-62 | the nested loops with the running `idx` build exactly the closed-form document `Annotate` |
| PretokenizedBuilder.ProcessPreTokenizedText | stanza/pipeline/tokenize_processor.py:40-64 | returns the records of the sentences read from either input form, and their single-space raw text |
| PretokenizedFacts.AnnotateKeepsTokens | stanza/pipeline/tokenize_processor.py:53-61 | one output sentence per input sentence, holding the input's tokens in order |
| PretokenizedFacts.SentenceIds | stanza/pipeline/tokenize_processor.py:58-59 | within a sentence the ids are the numerals of 1, 2, …, N in order, they read back as those numbers, and no two are equal |
| PretokenizedFacts.TokenSpan | stanza/pipeline/tokenize_processor.py:59 | every `misc` is the start key, the numeral of the running offset S, the end key and the numeral of E, where E is S plus the token's length; it parses back to (S, E) |
| PretokenizedFacts.EmptySentencesSpan | stanza/pipeline/tokenize_processor.py:62 | each empty sentence advances the running offset by exactly one |
| PretokenizedFacts.FirstTokenStart | stanza/pipeline/tokenize_processor.py:55-62 | the first token of the document starts at the number of empty sentences before it, so at 0 when the first sentence is non-empty |
| PretokenizedFacts.NextSentenceStart | stanza/pipeline/tokenize_processor.py:60-62 | the first token of the next non-empty sentence starts the last token's length plus two after that token's start, plus one for every empty sentence in between |
| PretokenizedFacts.SentenceStartDrift | stanza/pipeline/tokenize_processor.py:62-63 | at every sentence boundary the running offset exceeds the raw-text position by the number of non-empty sentences so far |
| PretokenizedFacts.PieceOfPiece | stanza/pipeline/tokenize_processor.py:63 | helper: a substring of a substring of the raw text is a substring of the raw text at the summed position |
| PretokenizedFacts.RawTextAt | stanza/pipeline/tokenize_processor.py:63 | each token sits in the raw text after the earlier sentence texts and the earlier tokens of its sentence, each followed by a space |
| PretokenizedFacts.RawTextDrift | stanza/pipeline/tokenize_processor.py:59-63 | the raw text holds each token at its recorded offsets shifted left by the number of non-empty sentences before its sentence |
| PretokenizedFacts.NonEmptyCountAll | stanza/pipeline/tokenize_processor.py:54 | helper: when no sentence before `k` is empty, the count of non-empty sentences before `k` is `k` |
| PretokenizedFacts.RawTextShiftBySentenceIndex | stanza/pipeline/tokenize_processor.py:59-63 | with no empty sentences before sentence `k`, its tokens sit in the raw text at their offsets minus `k`, so sentence 0 dereferences exactly |
| PretokenizedFacts.ListFormOffsets | stanza/pipeline/tokenize_processor.py:55-62 | `[["A","B"],["C"]]` gives running offsets 0, 2 and 5 |
| PretokenizedFacts.ListFormExample | stanza/pipeline/tokenize_processor.py:54-63 | `[["A","B"],["C"]]` records A at 0..1, B at 2..3 and C at 5..6, with raw text `"A B C"` |
| PretokenizedFacts.SmallMisc | stanza/pipeline/tokenize_processor.py:59 | the annotations of the list-form example spelled out |
| PretokenizedFacts.SingleDigitMisc | stanza/pipeline/tokenize_processor.py:59 | helper: the annotation of one-digit offsets is the key, the digit, the second key and the second digit |
| PretokenizedFacts.ListFormRawText | stanza/pipeline/tokenize_processor.py:63 | the raw text of `[["A","B"],["C"]]` is `"A B C"` |
| PretokenizedFacts.TextFormExample | stanza/pipeline/tokenize_processor.py:52-63 | the string `"Hello world\nFoo"` reads as `[["Hello","world"],["Foo"]]`, records Foo with the annotation of 13..16, and has raw text `"Hello world Foo"` |
| PretokenizedFacts.TextFormParse | stanza/pipeline/tokenize_processor.py:52 | `"Hello world\nFoo"` reads as the two sentences `["Hello","world"]` and `["Foo"]` |
| PretokenizedFacts.ParseWordsOfTwoLines | stanza/pipeline/tokenize_processor.py:52 | a line of two tokens followed by a line of one token reads as those two sentences |
| PretokenizedFacts.RecordsOfHelloWorldFoo | stanza/pipeline/tokenize_processor.py:55-63 | any string that reads as the example's sentences records Foo at 13..16 and has raw text `"Hello world Foo"` |
| PretokenizedFacts.TextFormOffsets | stanza/pipeline/tokenize_processor.py:55-62 | on `[["Hello","world"],["Foo"]]` the running offset reaches 13 at Foo |
| PretokenizedFacts.TextFormRawText | stanza/pipeline/tokenize_processor.py:63 | the raw text of `[["Hello","world"],["Foo"]]` is `"Hello world Foo"` |
| PretokenizedFacts.SplitTwoLines | stanza/pipeline/tokenize_processor.py:52 | example helper, the two-line case of `SplitOfJoin` used by `TextFormParse`: a string of two lines that does not end in a newline splits into those two lines |
| PretokenizedFacts.ParseNonEmptyLines | stanza/pipeline/tokenize_processor.py:52 | example helper, the two-line case of `ParseNonEmptyLinesAll` used by `TextFormParse`: two non-empty lines are two sentences, each the words of its line |
| PretokenizedFacts.ParseTwoLines | stanza/pipeline/tokenize_processor.py:52 | example helper, the two-line case of `ParseJoinedLines` used by `TextFormParse`: the string form of two non-empty lines reads as the words of each line |
| PretokenizedFacts.ParseOneLine | stanza/pipeline/tokenize_processor.py:52 | a line without newlines is one sentence of its whitespace-separated words, and a line of blanks is one empty sentence |
| PretokenizedFacts.EmptyLineSkipped | stanza/pipeline/tokenize_processor.py:52 | an empty line contributes no sentence, wherever it stands |
| PretokenizedFacts.ParseJoinedLines | stanza/pipeline/tokenize_processor.py:52 | newline-free lines joined with newlines, the last line non-empty, are read line by line: the string form gives exactly the line comprehension over those lines |
| PretokenizedFacts.ParseNonEmptyLinesAll | stanza/pipeline/tokenize_processor.py:52 | when no line is empty, each line becomes one sentence: its whitespace-separated words |
| PretokenizedFacts.TrailingNewlineDropped | stanza/pipeline/tokenize_processor.py:52 | a trailing newline does not change what the string form reads |
| PretokenizedFacts.EmptyListKept | stanza/pipeline/tokenize_processor.py:54 | an empty token list in the list form is kept as an empty sentence |
| PretokenizedFacts.EmptyTextInput | stanza/pipeline/tokenize_processor.py:52-63 | the empty string gives no sentence, an empty document and an empty raw text |
| PretokenizedFacts.JoinAvoids | stanza/pipeline/tokenize_processor.py:63 | helper: a character absent from the parts and from the separator is absent from their join |
| PretokenizedFacts.ConcatSingletons | stanza/pipeline/tokenize_processor.py:63 | helper: concatenating the one-element lists of a sequence gives the sequence back |
| PretokenizedFacts.WordsOfSentence | stanza/pipeline/tokenize_processor.py:63 | the space-join of a sentence splits back on whitespace into its tokens |
| PretokenizedFacts.WordsOfRawText | stanza/pipeline/tokenize_processor.py:63 | when every token is non-empty and free of whitespace, as every string input's tokens are, the raw text splits on whitespace into all tokens of the document, in order |
| PretokenizedFacts.NoNewlineInRawText | stanza/pipeline/tokenize_processor.py:63 | when every token is non-empty and free of whitespace, as every string input's tokens are, the raw text contains no newline |
| PretokenizedFacts.ReparseRawText | stanza/pipeline/tokenize_processor.py:52-63 | when every token is non-empty and free of whitespace, as every string input's tokens are, the raw text of a document with at least one token, read back through the string form, is one sentence holding every token in order |
| PretokenizedFacts.PretokenizedIdempotent | stanza/pipeline/tokenize_processor.py:40-64 | for a one-sentence document whose tokens are non-empty and free of whitespace, re-feeding the raw text gives the same sentences, records and raw text |
| TokenizeProcessor.Zeros | stanza/pipeline/tokenize_processor.py:80 | `'0' * n` is `n` characters, all `'0'` |
| TokenizeProcessor.ViText | stanza/pipeline/tokenize_processor.py:79 | the Vietnamese text, split into paragraphs, rejoined and right-stripped, is the document right-stripped of whitespace |
| TokenizeProcessor.MasksAlign | stanza/pipeline/tokenize_processor.py:80 | joining all-zero masks as long as the parts gives a string as long as the join of the parts, with a separator character wherever it is not `'0'` |
| TokenizeProcessor.DummyLabels | stanza/pipeline/tokenize_processor.py:80 | the labels are as long as the text; every label is `'0'`, or a `'\n'` where the text also has `'\n'` |
| TokenizeProcessor.Strings | stanza/pipeline/tokenize_processor.py:84-85 | a list of string items gives the same strings, in order |
| TokenizeProcessor.InputKindAccepted | stanza/pipeline/tokenize_processor.py:67 | the assertion at the top of `process`: a string is always accepted, a list only with `pretokenized` or `no_ssplit` set; `Classify` and `Process` fail with the input-kind error exactly when it does not hold |
| TokenizeProcessor.Classify | stanza/pipeline/tokenize_processor.py:67-77 | the input-kind check fails exactly when the input is a list and neither `pretokenized` nor `no_ssplit` is set; otherwise `pretokenized` is chosen exactly when set, `with_spacy` exactly when set without it, and the model path otherwise, Vietnamese exactly when the language is `vi` |
| TokenizeProcessor.MaxSeqlen | stanza/pipeline/tokenize_processor.py:89 | the `max_seqlen` entry when present, and 1000 when absent |
| TokenizeProcessor.ModelRequestFor | stanza/pipeline/tokenize_processor.py:77-91 | the model request carries `max_seqlen` (default 1000) and `no_ssplit`. On the Vietnamese path it fails exactly for a list input, and otherwise carries the right-stripped text, the dummy labels of that text (as long as it) and the original text. On other paths a string goes through as it is, and a list succeeds exactly when all its items are strings, its text then being their blank-line join |
| TokenizeProcessor.Process | stanza/pipeline/tokenize_processor.py:66-92 | a call is rejected with the input-kind error exactly when the input is a list and neither `pretokenized` nor `no_ssplit` is set. `pretokenized` gives the builder's records and raw text with no probabilities. `with_spacy` returns spaCy's document unchanged. Otherwise the document holds the model's sentences and probabilities, with the input itself as its raw text |
| TokenizeProcessor.ProcessAsWritten | stanza/pipeline/tokenize_processor.py:70-92 | as written, the pretokenized path raises on the unassigned `prob`; every other path is `Process` |
| TokenizeProcessor.PretokenizedBeatsSpacy | stanza/pipeline/tokenize_processor.py:70-73 | with `pretokenized` set, neither `with_spacy` nor the language changes the result, and it always succeeds |
| TokenizeProcessor.ModelPathKeepsInput | stanza/pipeline/tokenize_processor.py:75 | on the model path the document's raw text is the input value itself, and probabilities are present |
| TokenizeProcessor.ListJoinedForModel | stanza/pipeline/tokenize_processor.py:84-86 | outside Vietnamese, a list of strings reaches the model, both as batch text and as original text, as the `"\n\n"` join of its strings, whose length is the strings' total length plus two per gap |
| TokenizeProcessor.BlankLinesBetweenItems | stanza/pipeline/tokenize_processor.py:85 | in the blank-line join of a list of strings, `"\n\n"` stands right after every string but the last |
| TokenizeProcessor.PretokenizedRaisesAsWritten | stanza/pipeline/tokenize_processor.py:70-92 | on `"Hello world\nFoo"` with `pretokenized` set, the code as written raises, while the corrected `Process` returns a document |

## Left out

- `DataLoader`, `Trainer`, `output_predictions`, `paras_to_chunks`,
  `SpacyTokenizer` and `doc.Document` are not part of this model. Their code
  is not available.
  - spaCy's tokenizer and the model's prediction step are function parameters
    of `Process`.
  - The batches are represented by what they are built from (`BatchInput`).
  - The pipeline document is a plain datatype.
  - The `no_ssplit` override, which makes the whole input one sentence,
    happens inside `output_predictions` and is only passed through.
- `_set_up_model` (lines 29-38) is left out. Loading the model, choosing a
  GPU and logging are side effects outside the assembly logic. Which branch
  `process` takes is decided by the same configuration flags, and those are
  modelled.
- The per-token probabilities are an opaque type parameter. They are
  floating-point output of the model.
- Only strings and lists are modelled as inputs to `process`. List elements
  can be strings or lists of strings. Any other Python value, and a token
  that is not a string, is not modelled.
- Configuration values are read as booleans and a language string. Python's
  truthiness of other values is not modelled.
- The configuration lookups and the vocabulary passed to the model are not
  modelled.
- spaCy and the model's prediction step are total functions in this model.
  A failure raised inside either is not modelled; `process` would pass it
  on unchanged.
- Dafny strings hold Unicode scalar values only. A Python `str` holding a
  lone surrogate is not modelled.
- PretokenizedFacts.PretokenizedIdempotent: the idempotence is stated for
  one-sentence documents whose tokens are non-empty and free of whitespace
  only. A document with several sentences comes back as one sentence
  (`ReparseRawText`), so its records differ, and a list-form token holding
  whitespace is split apart when read back.

## Findings

| source | as written | input that shows it | evidently intended | confidence | as-written member | corrected member |
|---|---|---|---|---|---|---|
| stanza/pipeline/tokenize_processor.py:92 | `prob` is assigned only on the model path (line 88), but the last line reads it on the pretokenized path too, which raises `UnboundLocalError` | `process("Hello world\nFoo")` with `pretokenized` set | the pretokenized document has no probabilities (`prob=None`) | high, not executed | TokenizeProcessor.PretokenizedRaisesAsWritten | TokenizeProcessor.Process |
