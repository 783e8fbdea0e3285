/** The pretokenized path of the tokenize processor: input whose sentence and
    token boundaries are already known is turned into token records with
    character offsets, plus a reconstructed raw text. */
module PretokenizedBuilder {
  import opened Wrappers
  import opened PyStr

  /** One token dictionary of a sentence: its `id`, `text` and `misc` entries. */
  datatype TokenRecord = TokenRecord(id: string, text: string, misc: string)

  /** An element of a list input: a string, or a list of token strings. */
  datatype Item = Str(s: string) | TokenList(tokens: seq<string>)

  /** What a caller hands to the processor: one string or a list. */
  datatype Input = Text(text: string) | List(items: seq<Item>)

  /** What `str.split()` can produce: non-empty and free of whitespace. */
  predicate IsToken(t: string) {
    t != [] && NoWhitespace(t)
  }

  predicate AllTokens(ss: seq<seq<string>>) {
    forall k, j :: 0 <= k < |ss| && 0 <= j < |ss[k]| ==> IsToken(ss[k][j])
  }

  // ---------------------------------------------------------------------
  // The two input forms

  /** The comprehension over the lines of the string form: empty lines are
      skipped, every other line is right-stripped of spaces and split on
      whitespace (so a line of blanks gives an empty sentence). */
  function ParseLines(lines: seq<string>): (r: seq<seq<string>>)
    ensures |r| <= |lines|
    ensures AllTokens(r)
    decreases |lines|
  {
    if lines == [] then []
    else
      var first := if lines[0] == "" then [] else [Words(RStrip(lines[0], Chars({' '})))];
      var rest := ParseLines(lines[1..]);
      WordsAreTokens(RStrip(lines[0], Chars({' '})));
      assert AllTokens(first + rest) by {
        forall k, j | 0 <= k < |first + rest| && 0 <= j < |(first + rest)[k]|
          ensures IsToken((first + rest)[k][j])
        {
          if k >= |first| {
            assert (first + rest)[k] == rest[k - |first|];
          }
        }
      }
      first + rest
  }

  /** The string form: one sentence per line, trailing newlines dropped. */
  function ParseText(s: string): (r: seq<seq<string>>)
    ensures AllTokens(r)
    ensures s == "" ==> r == []
  {
    ParseLines(Split(RStrip(s, Chars({'\n'})), "\n"))
  }

  /** One sentence of the list form; iterating a string yields its
      characters, so a string element is a sentence of one-character tokens. */
  function SentenceOf(item: Item): (r: seq<string>)
    ensures item.TokenList? ==> r == item.tokens
    ensures item.Str? ==> |r| == |item.s| && forall j :: 0 <= j < |r| ==> r[j] == [item.s[j]]
  {
    match item
    case TokenList(tokens) => tokens
    case Str(s) => seq(|s|, j requires 0 <= j < |s| => [s[j]])
  }

  /** The sentences of either input form: the lines of a string, or one
      sentence per element of a list, in order. */
  function SentencesOf(input: Input): (r: seq<seq<string>>)
    ensures input.Text? ==> AllTokens(r)
    ensures input.List? ==> |r| == |input.items| && forall k :: 0 <= k < |r| ==> r[k] == SentenceOf(input.items[k])
  {
    match input
    case Text(s) => ParseText(s)
    case List(items) => seq(|items|, k requires 0 <= k < |items| => SentenceOf(items[k]))
  }

  // ---------------------------------------------------------------------
  // Offsets

  /** How far the running offset advances over a list of sentences: each
      token adds its length plus one, each sentence one more. */
  function DocumentSpan(ss: seq<seq<string>>): nat
    decreases |ss|
  {
    if ss == [] then 0
    else DocumentSpan(ss[..|ss| - 1]) + Width(ss[|ss| - 1], 1) + 1
  }

  /** The running offset when token `j` of sentence `k` is reached. */
  function StartChar(ss: seq<seq<string>>, k: nat, j: nat): nat
    requires k < |ss| && j <= |ss[k]|
  {
    DocumentSpan(ss[..k]) + Width(ss[k][..j], 1)
  }

  const StartKey := "start_char="
  const EndKey := "|end_char="

  /** The `misc` annotation of a token spanning `start` to `end`. */
  function Misc(start: nat, end: nat): string {
    StartKey + Digits(start) + EndKey + Digits(end)
  }

  /** Length of the run of digits that starts `s`. */
  function DigitRun(s: string): (n: nat)
    ensures n <= |s| && AllDigits(s[..n])
    ensures n < |s| ==> !IsDigit(s[n])
    decreases |s|
  {
    if s == [] || !IsDigit(s[0]) then 0
    else
      var n := 1 + DigitRun(s[1..]);
      assert s[..n] == [s[0]] + s[1..][..n - 1];
      n
  }

  /** The rest of `s` after `prefix`, if `s` starts with it. */
  function StripPrefix(prefix: string, s: string): (r: Option<string>)
    ensures r.Some? <==> prefix <= s
    ensures r.Some? ==> s == prefix + r.value
  {
    if prefix <= s then Some(s[|prefix|..]) else None
  }

  /** A leading numeral of `s`, its value and what follows it. */
  function ReadNumber(s: string): Option<(nat, string)> {
    var n := DigitRun(s);
    if n == 0 then None else Some((DecimalValue(s[..n]), s[n..]))
  }

  /** Reads the two offsets back out of a `misc` annotation. */
  function ParseMisc(m: string): Option<(nat, nat)> {
    match StripPrefix(StartKey, m)
    case None => None
    case Some(afterStart) =>
      match ReadNumber(afterStart)
      case None => None
      case Some((start, afterNumber)) =>
        match StripPrefix(EndKey, afterNumber)
        case None => None
        case Some(e) =>
          if e != [] && AllDigits(e) then Some((start, DecimalValue(e))) else None
  }

  lemma {:induction false} DigitRunOfNumeral(d: string, x: string)
    requires AllDigits(d)
    requires x != [] && !IsDigit(x[0])
    ensures DigitRun(d + x) == |d|
    decreases |d|
  {
    var s := d + x;
    if d == [] {
      assert s == x;
    } else {
      var tail := d[1..];
      assert AllDigits(tail) by {
        forall i | 0 <= i < |tail| ensures IsDigit(tail[i]) {
          assert tail[i] == d[i + 1];
        }
      }
      assert s[0] == d[0] && IsDigit(s[0]);
      assert s[1..] == tail + x;
      DigitRunOfNumeral(tail, x);
    }
  }

  lemma {:induction false} ReadNumeral(n: nat, x: string)
    requires x != [] && !IsDigit(x[0])
    ensures ReadNumber(Digits(n) + x) == Some((n, x))
  {
    var d := Digits(n);
    DigitRunOfNumeral(d, x);
    assert (d + x)[..|d|] == d && (d + x)[|d|..] == x;
    DecimalRoundTrip(n);
  }

  lemma {:induction false} StripPrefixOf(prefix: string, s: string)
    ensures StripPrefix(prefix, prefix + s) == Some(s)
  {
    assert prefix <= prefix + s;
    assert (prefix + s)[|prefix|..] == s;
  }

  /** The annotation records exactly the two offsets it was made from. */
  lemma {:induction false} MiscRoundTrip(start: nat, end: nat)
    ensures ParseMisc(Misc(start, end)) == Some((start, end))
  {
    var ds, de := Digits(start), Digits(end);
    assert Misc(start, end) == StartKey + (ds + (EndKey + de));
    StripPrefixOf(StartKey, ds + (EndKey + de));
    ReadNumeral(start, EndKey + de);
    StripPrefixOf(EndKey, de);
    DecimalRoundTrip(end);
  }

  function TokenAt(ss: seq<seq<string>>, k: nat, j: nat): TokenRecord
    requires k < |ss| && j < |ss[k]|
  {
    var start := StartChar(ss, k, j);
    TokenRecord(Digits(j + 1), ss[k][j], Misc(start, start + |ss[k][j]|))
  }

  /** The document the pretokenized path builds, in closed form: one list of
      token records per sentence, the tokens in their input order. */
  function Annotate(ss: seq<seq<string>>): (doc: seq<seq<TokenRecord>>)
    ensures |doc| == |ss|
    ensures forall k :: 0 <= k < |ss| ==> |doc[k]| == |ss[k]|
  {
    seq(|ss|, k requires 0 <= k < |ss| =>
      seq(|ss[k]|, j requires 0 <= j < |ss[k]| => TokenAt(ss, k, j)))
  }

  /** The single-space join of each sentence. */
  function SentenceTexts(ss: seq<seq<string>>): (r: seq<string>)
    ensures |r| == |ss|
    ensures forall k :: 0 <= k < |ss| ==> r[k] == Join(ss[k], " ")
  {
    seq(|ss|, k requires 0 <= k < |ss| => Join(ss[k], " "))
  }

  /** The raw text of the pretokenized path: the sentence texts joined by
      single spaces. */
  function RawText(ss: seq<seq<string>>): string {
    Join(SentenceTexts(ss), " ")
  }

  // ---------------------------------------------------------------------
  // The builder

  /** Advancing past token `j` adds its length and one separator. */
  lemma {:induction false} StartCharStep(ss: seq<seq<string>>, k: nat, j: nat)
    requires k < |ss| && j < |ss[k]|
    ensures StartChar(ss, k, j + 1) == StartChar(ss, k, j) + |ss[k][j]| + 1
  {
    assert ss[k][..j + 1][..j] == ss[k][..j];
  }

  /** Leaving sentence `k` adds one more unit after its last token. */
  lemma {:induction false} DocumentSpanStep(ss: seq<seq<string>>, k: nat)
    requires k < |ss|
    ensures DocumentSpan(ss[..k + 1]) == StartChar(ss, k, |ss[k]|) + 1
  {
    assert ss[..k + 1][..k] == ss[..k];
    assert ss[k][..|ss[k]|] == ss[k];
  }

  /** The loop of the builder: walks the sentences in order, numbering the
      tokens of each sentence from one and recording the running offset of
      every token. */
  method BuildDocument(sentences: seq<seq<string>>) returns (document: seq<seq<TokenRecord>>)
    ensures document == Annotate(sentences)
  {
    ghost var spec := Annotate(sentences);
    document := [];
    var idx: nat := 0;
    for k := 0 to |sentences|
      invariant document == spec[..k]
      invariant idx == DocumentSpan(sentences[..k])
    {
      var sentence := sentences[k];
      ghost var row := spec[k];
      var sent: seq<TokenRecord> := [];
      for tokenId := 0 to |sentence|
        invariant sent == row[..tokenId]
        invariant idx == StartChar(sentences, k, tokenId)
      {
        var token := sentence[tokenId];
        assert row[tokenId] == TokenAt(sentences, k, tokenId);
        sent := sent + [TokenRecord(Digits(tokenId + 1), token, Misc(idx, idx + |token|))];
        assert row[..tokenId + 1] == row[..tokenId] + [row[tokenId]];
        StartCharStep(sentences, k, tokenId);
        idx := idx + |token| + 1;
      }
      assert row[..|sentence|] == row;
      DocumentSpanStep(sentences, k);
      assert spec[..k + 1] == spec[..k] + [row];
      document := document + [sent];
      idx := idx + 1;
    }
    assert spec[..|sentences|] == spec;
  }

  /** `process_pre_tokenized_text`: reads the sentences from either input
      form, builds their token records and reconstructs the raw text. */
  method ProcessPreTokenizedText(input: Input) returns (rawText: string, document: seq<seq<TokenRecord>>)
    ensures document == Annotate(SentencesOf(input))
    ensures rawText == RawText(SentencesOf(input))
  {
    var sentences := SentencesOf(input);
    document := BuildDocument(sentences);
    rawText := RawText(sentences);
  }
}
