/** What the pretokenized path guarantees about the records and the raw text
    it produces, stated over the closed forms its builder is proved against. */
module PretokenizedFacts {
  import opened Wrappers
  import opened PyStr
  import opened PretokenizedBuilder

  // ---------------------------------------------------------------------
  // Shape, ids and annotations

  /** One output sentence per input sentence, holding the input's tokens in
      order. */
  lemma {:induction false} AnnotateKeepsTokens(ss: seq<seq<string>>)
    ensures |Annotate(ss)| == |ss|
    ensures forall k :: 0 <= k < |ss| ==> |Annotate(ss)[k]| == |ss[k]|
    ensures forall k, j :: 0 <= k < |ss| && 0 <= j < |ss[k]| ==> Annotate(ss)[k][j].text == ss[k][j]
  {
  }

  /** Within a sentence the ids are the numerals of 1, 2, ..., N in order,
      so no two tokens of a sentence share an id. */
  lemma {:induction false} SentenceIds(ss: seq<seq<string>>, k: nat)
    requires k < |ss|
    ensures forall j :: 0 <= j < |ss[k]| ==>
      Annotate(ss)[k][j].id == Digits(j + 1) && DecimalValue(Annotate(ss)[k][j].id) == j + 1
    ensures forall i, j :: 0 <= i < j < |ss[k]| ==> Annotate(ss)[k][i].id != Annotate(ss)[k][j].id
  {
    forall j | 0 <= j < |ss[k]|
      ensures DecimalValue(Annotate(ss)[k][j].id) == j + 1
    {
      DecimalRoundTrip(j + 1);
    }
  }

  /** The `misc` annotation of every token reads back as its two offsets,
      which lie the token's length apart. */
  lemma {:induction false} TokenSpan(ss: seq<seq<string>>, k: nat, j: nat)
    requires k < |ss| && j < |ss[k]|
    ensures Annotate(ss)[k][j].misc == Misc(StartChar(ss, k, j), StartChar(ss, k, j) + |ss[k][j]|)
    ensures ParseMisc(Annotate(ss)[k][j].misc)
         == Some((StartChar(ss, k, j), StartChar(ss, k, j) + |ss[k][j]|))
  {
    var start := StartChar(ss, k, j);
    var end := start + |ss[k][j]|;
    assert Annotate(ss)[k][j] == TokenAt(ss, k, j);
    assert TokenAt(ss, k, j).misc == Misc(start, end);
    MiscRoundTrip(start, end);
  }

  // ---------------------------------------------------------------------
  // The running offset

  /** Empty sentences advance the running offset by one each. */
  lemma {:induction false} EmptySentencesSpan(ss: seq<seq<string>>, k: nat, m: nat)
    requires k <= m <= |ss|
    requires forall i :: k <= i < m ==> ss[i] == []
    ensures DocumentSpan(ss[..m]) == DocumentSpan(ss[..k]) + (m - k)
    decreases m - k
  {
    if m > k {
      EmptySentencesSpan(ss, k, m - 1);
      assert ss[..m][..m - 1] == ss[..m - 1];
    }
  }

  /** If the sentences before `m` are all empty, its first token starts at
      `m`; in particular the first token of a document whose first sentence
      is non-empty starts at 0. */
  lemma {:induction false} FirstTokenStart(ss: seq<seq<string>>, m: nat)
    requires m < |ss| && ss[m] != []
    requires forall i :: 0 <= i < m ==> ss[i] == []
    ensures StartChar(ss, m, 0) == m
  {
    EmptySentencesSpan(ss, 0, m);
  }

  /** The first token of the next non-empty sentence starts two units after
      the end of the last token of this one, plus one for every empty
      sentence in between. */
  lemma {:induction false} NextSentenceStart(ss: seq<seq<string>>, k: nat, m: nat)
    requires k < m < |ss|
    requires ss[k] != [] && ss[m] != []
    requires forall i :: k < i < m ==> ss[i] == []
    ensures var last := |ss[k]| - 1;
      StartChar(ss, m, 0) == StartChar(ss, k, last) + |ss[k][last]| + 2 + (m - k - 1)
  {
    var last := |ss[k]| - 1;
    EmptySentencesSpan(ss, k + 1, m);
    DocumentSpanStep(ss, k);
    StartCharStep(ss, k, last);
  }

  // ---------------------------------------------------------------------
  // The raw text

  /** How many of the sentences are non-empty. */
  function NonEmptyCount(ss: seq<seq<string>>): nat
    decreases |ss|
  {
    if ss == [] then 0
    else NonEmptyCount(ss[..|ss| - 1]) + (if ss[|ss| - 1] == [] then 0 else 1)
  }

  /** The running offset outruns the raw text by one per non-empty sentence:
      an empty sentence adds one to both, a non-empty one adds one unit more
      to the offset than to the raw text. */
  lemma {:induction false} SentenceStartDrift(ss: seq<seq<string>>, k: nat)
    requires k <= |ss|
    ensures Width(SentenceTexts(ss)[..k], 1) + NonEmptyCount(ss[..k]) == DocumentSpan(ss[..k])
  {
    if k > 0 {
      SentenceStartDrift(ss, k - 1);
      JoinLength(ss[k - 1], " ");
      assert SentenceTexts(ss)[..k][..k - 1] == SentenceTexts(ss)[..k - 1];
      assert ss[..k][..k - 1] == ss[..k - 1];
    }
  }

  /** A piece of a piece of a string is a piece of the string. */
  lemma {:induction false} PieceOfPiece(whole: string, part: string, outer: nat, piece: string, inner: nat)
    requires outer + |part| <= |whole| && whole[outer..outer + |part|] == part
    requires inner + |piece| <= |part| && part[inner..inner + |piece|] == piece
    ensures outer + inner + |piece| <= |whole|
    ensures whole[outer + inner..outer + inner + |piece|] == piece
  {
    forall i | 0 <= i < |piece| ensures whole[outer + inner + i] == piece[i] {
      assert piece[i] == part[inner + i] == whole[outer + inner + i];
    }
  }

  /** Token `j` of sentence `k` sits in the raw text after the first `k`
      sentence texts and the first `j` tokens, each with its separator. */
  lemma {:induction false} RawTextAt(ss: seq<seq<string>>, k: nat, j: nat)
    requires k < |ss| && j < |ss[k]|
    ensures Width(SentenceTexts(ss)[..k], 1) + Width(ss[k][..j], 1) + |ss[k][j]| <= |RawText(ss)|
    ensures RawText(ss)[Width(SentenceTexts(ss)[..k], 1) + Width(ss[k][..j], 1)
                        ..Width(SentenceTexts(ss)[..k], 1) + Width(ss[k][..j], 1) + |ss[k][j]|] == ss[k][j]
  {
    var texts := SentenceTexts(ss);
    JoinAt(texts, " ", k);
    JoinAt(ss[k], " ", j);
    PieceOfPiece(RawText(ss), texts[k], Width(texts[..k], 1), ss[k][j], Width(ss[k][..j], 1));
  }

  /** Where the offsets point in the raw text: the token at sentence `k`
      sits in the raw text at its recorded offsets shifted left by the
      number of non-empty sentences before sentence `k`. */
  lemma {:induction false} RawTextDrift(ss: seq<seq<string>>, k: nat, j: nat)
    requires k < |ss| && j < |ss[k]|
    ensures NonEmptyCount(ss[..k]) <= StartChar(ss, k, j)
    ensures StartChar(ss, k, j) - NonEmptyCount(ss[..k]) + |ss[k][j]| <= |RawText(ss)|
    ensures RawText(ss)[StartChar(ss, k, j) - NonEmptyCount(ss[..k])
                        ..StartChar(ss, k, j) - NonEmptyCount(ss[..k]) + |ss[k][j]|] == ss[k][j]
  {
    SentenceStartDrift(ss, k);
    RawTextAt(ss, k, j);
  }

  /** With no empty sentence before sentence `k`, its tokens are shifted by
      exactly `k`; sentence 0 therefore dereferences exactly. */
  lemma {:induction false} NonEmptyCountAll(ss: seq<seq<string>>, k: nat)
    requires k <= |ss|
    requires forall i :: 0 <= i < k ==> ss[i] != []
    ensures NonEmptyCount(ss[..k]) == k
  {
    if k > 0 {
      NonEmptyCountAll(ss, k - 1);
      assert ss[..k][..k - 1] == ss[..k - 1];
    }
  }

  lemma {:induction false} RawTextShiftBySentenceIndex(ss: seq<seq<string>>, k: nat, j: nat)
    requires k < |ss| && j < |ss[k]|
    requires forall i :: 0 <= i < k ==> ss[i] != []
    ensures k <= StartChar(ss, k, j) && StartChar(ss, k, j) - k + |ss[k][j]| <= |RawText(ss)|
    ensures RawText(ss)[StartChar(ss, k, j) - k..StartChar(ss, k, j) - k + |ss[k][j]|] == ss[k][j]
  {
    NonEmptyCountAll(ss, k);
    RawTextDrift(ss, k, j);
  }

  /** The running offsets of the list-form example [["A", "B"], ["C"]]. */
  lemma {:induction false} ListFormOffsets()
    ensures StartChar([["A", "B"], ["C"]], 0, 0) == 0
    ensures StartChar([["A", "B"], ["C"]], 0, 1) == 2
    ensures StartChar([["A", "B"], ["C"]], 1, 0) == 5
  {
    var ss := [["A", "B"], ["C"]];
    assert ss[..0] == [] && ss[..1] == [ss[0]];
    assert ss[0][..0] == [] && ss[0][..1] == ["A"] && ss[1][..0] == [];
    assert ["A"][..0] == [];
    assert Width(["A"], 1) == 2;
    assert Width(["A", "B"], 1) == 4;
    assert DocumentSpan([ss[0]]) == 5;
  }

  /** The list-form example: C is recorded at 5..6 while the raw text
      "A B C" holds it at 4..5 and has no position 5. */
  lemma {:induction false} ListFormExample()
    ensures Annotate([["A", "B"], ["C"]])[0][0].misc == "start_char=0|end_char=1"
    ensures Annotate([["A", "B"], ["C"]])[0][1].misc == "start_char=2|end_char=3"
    ensures Annotate([["A", "B"], ["C"]])[1][0].misc == "start_char=5|end_char=6"
    ensures RawText([["A", "B"], ["C"]]) == "A B C"
  {
    var ss := [["A", "B"], ["C"]];
    ListFormOffsets();
    assert Annotate(ss)[0][0] == TokenAt(ss, 0, 0);
    assert Annotate(ss)[0][1] == TokenAt(ss, 0, 1);
    assert Annotate(ss)[1][0] == TokenAt(ss, 1, 0);
    SmallMisc();
    ListFormRawText();
  }

  lemma {:induction false} SmallMisc()
    ensures Misc(0, 1) == "start_char=0|end_char=1"
    ensures Misc(2, 3) == "start_char=2|end_char=3"
    ensures Misc(5, 6) == "start_char=5|end_char=6"
  {
    SingleDigitMisc(0, '0', 1, '1');
    SingleDigitMisc(2, '2', 3, '3');
    SingleDigitMisc(5, '5', 6, '6');
  }

  lemma {:induction false} SingleDigitMisc(start: nat, s: char, end: nat, e: char)
    requires start < 10 && end < 10
    requires s as int == '0' as int + start && e as int == '0' as int + end
    ensures Misc(start, end) == "start_char=" + [s] + "|end_char=" + [e]
  {
    assert Digits(start) == [s] && Digits(end) == [e];
  }

  lemma {:induction false} ListFormRawText()
    ensures RawText([["A", "B"], ["C"]]) == "A B C"
  {
    var ss := [["A", "B"], ["C"]];
    assert Join(ss[0], " ") == "A B";
    var texts := SentenceTexts(ss);
    assert texts == ["A B", "C"];
    assert texts[..1] == ["A B"];
  }

  /** The two-line case of `SplitOfJoin`, used by the string-form example. */
  lemma {:induction false} SplitTwoLines(a: string, b: string)
    requires b != "" && b[|b| - 1] != '\n'
    requires forall i :: 0 <= i < |a| ==> a[i] != '\n'
    requires forall i :: 0 <= i < |b| ==> b[i] != '\n'
    ensures Split(RStrip(a + "\n" + b, Chars({'\n'})), "\n") == [a, b]
  {
    var s := a + "\n" + b;
    assert s[|s| - 1] == b[|b| - 1];
    assert RStrip(s, Chars({'\n'})) == s;
    assert s == a + ['\n'] + b;
    SplitAtFirst(a, '\n', b);
    SplitWithoutSeparator(b, "\n");
  }

  /** The two-line case of `ParseNonEmptyLinesAll`, used by the string-form
      example. */
  lemma {:induction false} ParseNonEmptyLines(a: string, b: string)
    requires a != "" && b != ""
    ensures ParseLines([a, b]) == [Words(a), Words(b)]
  {
    WordsIgnoreTrailingSpaces(a);
    WordsIgnoreTrailingSpaces(b);
    assert [a, b][1..] == [b] && [b][1..] == [];
    assert ParseLines([b]) == [Words(b)] by {
      assert ParseLines([b]) == [Words(RStrip(b, Chars({' '})))] + ParseLines([]);
    }
    assert ParseLines([a, b]) == [Words(RStrip(a, Chars({' '})))] + ParseLines([b]);
  }

  /** Two non-empty lines, the last not ending in a newline, read as two
      sentences: the two-line case of `ParseJoinedLines`, used by the
      string-form example. */
  lemma {:induction false} ParseTwoLines(a: string, b: string)
    requires a != "" && b != "" && b[|b| - 1] != '\n'
    requires forall i :: 0 <= i < |a| ==> a[i] != '\n'
    requires forall i :: 0 <= i < |b| ==> b[i] != '\n'
    ensures ParseText(a + "\n" + b) == [Words(a), Words(b)]
  {
    SplitTwoLines(a, b);
    ParseNonEmptyLines(a, b);
  }

  /** The string-form example reads as two sentences. */
  lemma {:induction false} TextFormParse()
    ensures ParseText("Hello world\nFoo") == [["Hello", "world"], ["Foo"]]
  {
    ParseWordsOfTwoLines("Hello", "world", "Foo");
    assert "Hello" + " " + "world" + "\n" + "Foo" == "Hello world\nFoo";
  }

  /** Two lines, the first of two words and the second of one, read as two
      sentences. */
  lemma {:induction false} ParseWordsOfTwoLines(x: string, y: string, z: string)
    requires IsToken(x) && IsToken(y) && IsToken(z)
    requires forall i :: 0 <= i < |x| ==> x[i] != '\n'
    requires forall i :: 0 <= i < |y| ==> y[i] != '\n'
    ensures ParseText(x + " " + y + "\n" + z) == [[x, y], [z]]
  {
    var a := x + " " + y;
    assert forall i :: 0 <= i < |a| ==> a[i] != '\n' by {
      forall i | 0 <= i < |a| ensures a[i] != '\n' {
        if i < |x| { assert a[i] == x[i]; }
        else if i > |x| { assert a[i] == y[i - |x| - 1]; }
      }
    }
    assert forall i :: 0 <= i < |z| ==> z[i] != '\n' by {
      forall i | 0 <= i < |z| ensures z[i] != '\n' {
        assert !IsSpace(z[i]);
      }
    }
    assert !IsSpace(z[|z| - 1]);
    ParseTwoLines(a, z);
    WordsAroundSpace(x, y);
    WordsOfWord(x);
    WordsOfWord(y);
    WordsOfWord(z);
    assert Words(a) == [x, y];
    assert x + " " + y + "\n" + z == a + "\n" + z;
  }

  /** The string-form example: Foo is recorded at 13..16 while the raw text
      "Hello world Foo" holds it at 12..15. */
  lemma {:induction false} TextFormExample()
    ensures SentencesOf(Text("Hello world\nFoo")) == [["Hello", "world"], ["Foo"]]
    ensures Annotate(SentencesOf(Text("Hello world\nFoo")))[1][0].misc == Misc(13, 16)
    ensures RawText(SentencesOf(Text("Hello world\nFoo"))) == "Hello world Foo"
  {
    TextFormParse();
    RecordsOfHelloWorldFoo("Hello world\nFoo");
  }

  /** The records and raw text of any string that reads as the sentences of
      the string-form example. */
  lemma {:induction false} RecordsOfHelloWorldFoo(s: string)
    requires ParseText(s) == [["Hello", "world"], ["Foo"]]
    ensures SentencesOf(Text(s)) == [["Hello", "world"], ["Foo"]]
    ensures Annotate(SentencesOf(Text(s)))[1][0].misc == Misc(13, 16)
    ensures RawText(SentencesOf(Text(s))) == "Hello world Foo"
  {
    var ss := [["Hello", "world"], ["Foo"]];
    assert SentencesOf(Text(s)) == ss;
    TextFormOffsets();
    assert Annotate(ss)[1][0] == TokenAt(ss, 1, 0);
    TextFormRawText();
  }

  lemma {:induction false} TextFormOffsets()
    ensures StartChar([["Hello", "world"], ["Foo"]], 1, 0) == 13
  {
    var ss := [["Hello", "world"], ["Foo"]];
    assert ss[..1] == [ss[0]] && ss[1][..0] == [];
    assert ["Hello"][..0] == [] && ss[0][..1] == ["Hello"];
    assert Width(["Hello"], 1) == 6;
    assert Width(ss[0], 1) == 12;
  }

  lemma {:induction false} TextFormRawText()
    ensures RawText([["Hello", "world"], ["Foo"]]) == "Hello world Foo"
  {
    var ss := [["Hello", "world"], ["Foo"]];
    assert Join(ss[0], " ") == "Hello world";
    var texts := SentenceTexts(ss);
    assert texts == ["Hello world", "Foo"];
    assert texts[..1] == ["Hello world"];
  }

  // ---------------------------------------------------------------------
  // The string form

  /** A line without newlines is one sentence: its whitespace-separated
      words; a line made only of blanks becomes an empty sentence. */
  lemma {:induction false} ParseOneLine(line: string)
    requires line != ""
    requires forall i :: 0 <= i < |line| ==> line[i] != '\n'
    ensures ParseText(line) == [Words(line)]
    ensures AllSpace(line) ==> ParseText(line) == [[]]
  {
    assert RStrip(line, Chars({'\n'})) == line;
    SplitWithoutSeparator(line, "\n");
    WordsIgnoreTrailingSpaces(line);
    NoWordsIffAllSpace(line);
  }

  /** An empty line of the string form contributes no sentence, wherever it
      stands among the lines. */
  lemma {:induction false} EmptyLineSkipped(before: seq<string>, after: seq<string>)
    ensures ParseLines(before + [""] + after) == ParseLines(before + after)
    decreases |before|
  {
    if before == [] {
      assert before + [""] + after == [""] + after;
      assert ([""] + after)[1..] == after && before + after == after;
      assert ParseLines([""] + after) == ParseLines(after);
    } else {
      var lines, fewer := before + [""] + after, before + after;
      assert lines[0] == fewer[0] == before[0];
      assert lines[1..] == before[1..] + [""] + after;
      assert fewer[1..] == before[1..] + after;
      EmptyLineSkipped(before[1..], after);
    }
  }

  /** The string form reads newline-free lines, joined with newlines and not
      ending in an empty line, line by line through the comprehension. */
  lemma {:induction false} ParseJoinedLines(lines: seq<string>)
    requires lines != [] && lines[|lines| - 1] != ""
    requires forall i, j :: 0 <= i < |lines| && 0 <= j < |lines[i]| ==> lines[i][j] != '\n'
    ensures ParseText(Join(lines, "\n")) == ParseLines(lines)
  {
    var s := Join(lines, "\n");
    JoinLast(lines, "\n");
    var last := lines[|lines| - 1];
    assert s[|s| - 1] == last[|last| - 1] != '\n';
    assert RStrip(s, Chars({'\n'})) == s;
    SplitOfJoin(lines, '\n');
  }

  /** Non-empty lines become one sentence each: the words of that line. */
  lemma {:induction false} ParseNonEmptyLinesAll(lines: seq<string>)
    requires forall i :: 0 <= i < |lines| ==> lines[i] != ""
    ensures ParseLines(lines) == MapWords(lines)
    decreases |lines|
  {
    if lines != [] {
      var rest := lines[1..];
      ParseNonEmptyLinesAll(rest);
      WordsIgnoreTrailingSpaces(lines[0]);
      assert ParseLines(lines) == [Words(RStrip(lines[0], Chars({' '})))] + ParseLines(rest);
      assert MapWords(lines) == [Words(lines[0])] + MapWords(rest);
    }
  }

  /** Trailing newlines do not change what the string form reads. */
  lemma {:induction false} TrailingNewlineDropped(s: string)
    ensures ParseText(s + "\n") == ParseText(s)
  {
    var t := s + "\n";
    assert t[..|t| - 1] == s;
    assert RStrip(t, Chars({'\n'})) == RStrip(s, Chars({'\n'}));
  }

  /** In the list form an empty token list is kept as an empty sentence. */
  lemma {:induction false} EmptyListKept()
    ensures SentencesOf(List([TokenList([])])) == [[]]
    ensures Annotate(SentencesOf(List([TokenList([])]))) == [[]]
  {
  }

  /** The empty string gives no sentence and an empty raw text. */
  lemma {:induction false} EmptyTextInput()
    ensures SentencesOf(Text("")) == []
    ensures Annotate(SentencesOf(Text(""))) == []
    ensures RawText(SentencesOf(Text(""))) == ""
  {
  }

  // ---------------------------------------------------------------------
  // Feeding the raw text back in

  lemma {:induction false} JoinAvoids(parts: seq<string>, sep: string, c: char)
    requires forall i, j :: 0 <= i < |parts| && 0 <= j < |parts[i]| ==> parts[i][j] != c
    requires forall j :: 0 <= j < |sep| ==> sep[j] != c
    ensures forall j :: 0 <= j < |Join(parts, sep)| ==> Join(parts, sep)[j] != c
    decreases |parts|
  {
    if |parts| > 1 {
      JoinAvoids(parts[..|parts| - 1], sep, c);
    }
  }

  lemma {:induction false} ConcatSingletons(ts: seq<string>)
    ensures Concat(seq(|ts|, i requires 0 <= i < |ts| => [ts[i]])) == ts
    decreases |ts|
  {
    if ts != [] {
      var init := ts[..|ts| - 1];
      ConcatSingletons(init);
      assert seq(|ts|, i requires 0 <= i < |ts| => [ts[i]])[..|ts| - 1]
          == seq(|init|, i requires 0 <= i < |init| => [init[i]]);
    }
  }

  /** A space-joined sentence splits back into its tokens. */
  lemma {:induction false} WordsOfSentence(ts: seq<string>)
    requires forall j :: 0 <= j < |ts| ==> IsToken(ts[j])
    ensures Words(Join(ts, " ")) == ts
  {
    WordsOfSpaceJoin(ts);
    forall j | 0 <= j < |ts| ensures Words(ts[j]) == [ts[j]] {
      WordsOfWord(ts[j]);
    }
    assert MapWords(ts) == seq(|ts|, i requires 0 <= i < |ts| => [ts[i]]);
    ConcatSingletons(ts);
  }

  lemma {:induction false} WordsOfRawText(ss: seq<seq<string>>)
    requires AllTokens(ss)
    ensures Words(RawText(ss)) == Concat(ss)
  {
    var texts := SentenceTexts(ss);
    WordsOfSpaceJoin(texts);
    forall k | 0 <= k < |ss| ensures Words(texts[k]) == ss[k] {
      WordsOfSentence(ss[k]);
    }
    assert MapWords(texts) == ss;
  }

  lemma {:induction false} NoNewlineInRawText(ss: seq<seq<string>>)
    requires AllTokens(ss)
    ensures forall j :: 0 <= j < |RawText(ss)| ==> RawText(ss)[j] != '\n'
  {
    var texts := SentenceTexts(ss);
    forall k | 0 <= k < |ss|
      ensures forall j :: 0 <= j < |texts[k]| ==> texts[k][j] != '\n'
    {
      JoinAvoids(ss[k], " ", '\n');
    }
    JoinAvoids(texts, " ", '\n');
  }

  /** The raw text read back through the string form is one sentence holding
      every token of the document in order. */
  lemma {:induction false} ReparseRawText(ss: seq<seq<string>>)
    requires AllTokens(ss)
    requires Concat(ss) != []
    ensures ParseText(RawText(ss)) == [Concat(ss)]
  {
    var raw := RawText(ss);
    WordsOfRawText(ss);
    NoNewlineInRawText(ss);
    assert raw != [];
    ParseOneLine(raw);
  }

  /** Feeding the raw text of a one-sentence document back through the
      string form reproduces the same records. */
  lemma {:induction false} PretokenizedIdempotent(ts: seq<string>)
    requires ts != []
    requires forall j :: 0 <= j < |ts| ==> IsToken(ts[j])
    ensures SentencesOf(Text(RawText([ts]))) == [ts]
    ensures Annotate(SentencesOf(Text(RawText([ts])))) == Annotate([ts])
    ensures RawText(SentencesOf(Text(RawText([ts])))) == RawText([ts])
  {
    assert [ts][..0] == [];
    assert Concat([ts]) == ts;
    ReparseRawText([ts]);
  }
}
