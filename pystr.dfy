/** The Python string builtins the tokenizer processor relies on, written out
    over `string` (a sequence of Unicode scalar values). */
module PyStr {

  /** The characters for which Python's `str.isspace()` holds; `str.split()`
      and `str.rstrip()` without arguments split on and strip exactly these. */
  predicate IsSpace(c: char) {
    || '\t' <= c <= '\r'
    || '\U{1C}' <= c <= ' '
    || c == '\U{85}' || c == '\U{A0}' || c == '\U{1680}'
    || '\U{2000}' <= c <= '\U{200A}'
    || c == '\U{2028}' || c == '\U{2029}' || c == '\U{202F}' || c == '\U{205F}' || c == '\U{3000}'
  }

  /** The characters `rstrip` removes: those given, or whitespace when no
      argument is given. */
  datatype StripSet = Chars(chars: set<char>) | AnyWhitespace {
    predicate Has(c: char) {
      match this
      case Chars(chars) => c in chars
      case AnyWhitespace => IsSpace(c)
    }
  }

  predicate AllIn(s: string, strip: StripSet) {
    forall i :: 0 <= i < |s| ==> strip.Has(s[i])
  }

  predicate AllSpace(s: string) {
    forall i :: 0 <= i < |s| ==> IsSpace(s[i])
  }

  predicate NoWhitespace(s: string) {
    forall i :: 0 <= i < |s| ==> !IsSpace(s[i])
  }

  // ---------------------------------------------------------------------
  // s.rstrip(chars)

  /** `s.rstrip(chars)`: the longest prefix of `s` that does not end in a
      character of `chars`; everything cut off is made of `chars`. */
  function RStrip(s: string, chars: StripSet): (r: string)
    ensures r <= s
    ensures r == [] || !chars.Has(r[|r| - 1])
    ensures AllIn(s[|r|..], chars)
    decreases |s|
  {
    if s == [] || !chars.Has(s[|s| - 1]) then s
    else
      var r := RStrip(s[..|s| - 1], chars);
      assert s[|r|..] == s[..|s| - 1][|r|..] + [s[|s| - 1]];
      r
  }

  // ---------------------------------------------------------------------
  // sep.join(parts)

  /** Total length of `parts` when each part is followed by `sepLen` characters. */
  function Width(parts: seq<string>, sepLen: nat): nat
    decreases |parts|
  {
    if parts == [] then 0
    else Width(parts[..|parts| - 1], sepLen) + |parts[|parts| - 1]| + sepLen
  }

  /** `sep.join(parts)`. */
  function Join(parts: seq<string>, sep: string): string
    decreases |parts|
  {
    if |parts| == 0 then ""
    else if |parts| == 1 then parts[0]
    else Join(parts[..|parts| - 1], sep) + sep + parts[|parts| - 1]
  }

  /** A join is as long as its parts with one separator between each two. */
  lemma {:induction false} JoinLength(parts: seq<string>, sep: string)
    ensures parts == [] ==> Join(parts, sep) == []
    ensures parts != [] ==> |Join(parts, sep)| + |sep| == Width(parts, |sep|)
    decreases |parts|
  {
    if |parts| == 1 {
      assert parts[..0] == [];
    } else if |parts| > 1 {
      JoinLength(parts[..|parts| - 1], sep);
    }
  }

  lemma {:induction false} JoinCons(p: string, rest: seq<string>, sep: string)
    requires rest != []
    ensures Join([p] + rest, sep) == p + sep + Join(rest, sep)
    decreases |rest|
  {
    var ps := [p] + rest;
    if |rest| == 1 {
      assert ps[..|ps| - 1] == [p];
    } else {
      var init := rest[..|rest| - 1];
      assert ps[..|ps| - 1] == [p] + init;
      JoinCons(p, init, sep);
    }
  }

  /** A join over a prefix of the parts is a prefix of the join. */
  lemma {:induction false} JoinPrefix(parts: seq<string>, sep: string, m: nat)
    requires 1 <= m <= |parts|
    ensures Join(parts[..m], sep) <= Join(parts, sep)
    decreases |parts| - m
  {
    if m == |parts| {
      assert parts[..m] == parts;
    } else {
      var init := parts[..|parts| - 1];
      assert init[..m] == parts[..m];
      JoinPrefix(init, sep, m);
    }
  }

  /** Part `k` of a join starts after the first `k` parts and `k` separators. */
  lemma {:induction false} JoinAt(parts: seq<string>, sep: string, k: nat)
    requires k < |parts|
    ensures Width(parts[..k], |sep|) + |parts[k]| <= |Join(parts, sep)|
    ensures Join(parts, sep)[Width(parts[..k], |sep|)..Width(parts[..k], |sep|) + |parts[k]|] == parts[k]
  {
    var pre := parts[..k + 1];
    JoinPrefix(parts, sep, k + 1);
    assert pre[..k] == parts[..k];
    JoinLength(parts[..k], sep);
    if k > 0 {
      assert Join(pre, sep) == Join(parts[..k], sep) + sep + parts[k];
    }
  }

  /** Between part `k` and part `k + 1` of a join stands the separator. */
  lemma {:induction false} JoinSeparatorAt(parts: seq<string>, sep: string, k: nat)
    requires k + 1 < |parts|
    ensures Width(parts[..k], |sep|) + |parts[k]| + |sep| <= |Join(parts, sep)|
    ensures Join(parts, sep)[Width(parts[..k], |sep|) + |parts[k]|..Width(parts[..k], |sep|) + |parts[k]| + |sep|] == sep
  {
    var off := Width(parts[..k], |sep|) + |parts[k]|;
    var prefix := Join(parts[..k + 2], sep);
    SeparatorAfter(parts[..k + 2], sep);
    assert parts[..k + 2][..k] == parts[..k];
    JoinPrefix(parts, sep, k + 2);
    SliceOfPrefix(prefix, Join(parts, sep), off, off + |sep|);
  }

  /** In a join the separator follows the next-to-last part. */
  lemma {:induction false} SeparatorAfter(parts: seq<string>, sep: string)
    requires |parts| >= 2
    ensures var k := |parts| - 2; var off := Width(parts[..k], |sep|) + |parts[k]|;
      off + |sep| <= |Join(parts, sep)| && Join(parts, sep)[off..off + |sep|] == sep
  {
    var k := |parts| - 2;
    var upto := parts[..k + 1];
    assert upto[..k] == parts[..k];
    JoinLength(upto, sep);
    assert Join(parts, sep) == Join(upto, sep) + sep + parts[k + 1];
  }

  lemma {:induction false} SliceOfPrefix(a: string, b: string, i: nat, j: nat)
    requires a <= b && i <= j <= |a|
    ensures j <= |b| && b[i..j] == a[i..j]
  {
  }

  /** Every part of a join sits after the earlier parts and separators. */
  lemma {:induction false} PartsOfJoin(parts: seq<string>, sep: string)
    ensures forall i :: 0 <= i < |parts| ==>
      Width(parts[..i], |sep|) + |parts[i]| <= |Join(parts, sep)| &&
      Join(parts, sep)[Width(parts[..i], |sep|)..Width(parts[..i], |sep|) + |parts[i]|] == parts[i]
  {
    forall i | 0 <= i < |parts|
      ensures Width(parts[..i], |sep|) + |parts[i]| <= |Join(parts, sep)|
      ensures Join(parts, sep)[Width(parts[..i], |sep|)..Width(parts[..i], |sep|) + |parts[i]|] == parts[i]
    {
      JoinAt(parts, sep, i);
    }
  }

  /** The separator follows every part of a join but the last. */
  lemma {:induction false} SeparatorsOfJoin(parts: seq<string>, sep: string)
    ensures forall i :: 0 <= i < |parts| - 1 ==>
      Width(parts[..i], |sep|) + |parts[i]| + |sep| <= |Join(parts, sep)| &&
      Join(parts, sep)[Width(parts[..i], |sep|) + |parts[i]|..Width(parts[..i], |sep|) + |parts[i]| + |sep|] == sep
  {
    forall i | 0 <= i < |parts| - 1
      ensures Width(parts[..i], |sep|) + |parts[i]| + |sep| <= |Join(parts, sep)|
      ensures Join(parts, sep)[Width(parts[..i], |sep|) + |parts[i]|..Width(parts[..i], |sep|) + |parts[i]| + |sep|] == sep
    {
      JoinSeparatorAt(parts, sep, i);
    }
  }

  /** A join whose last part is non-empty ends in the last character of that
      part. */
  lemma {:induction false} JoinLast(parts: seq<string>, sep: string)
    requires parts != [] && parts[|parts| - 1] != []
    ensures var j := Join(parts, sep); var last := parts[|parts| - 1];
      j != [] && j[|j| - 1] == last[|last| - 1]
  {
  }

  // ---------------------------------------------------------------------
  // s.split(sep)

  /** `s.split(sep)` for a non-empty separator: cut at every occurrence of
      `sep`, scanning from the left, without overlaps. */
  function Split(s: string, sep: string): (r: seq<string>)
    requires sep != []
    ensures |r| >= 1
    decreases |s|
  {
    if |sep| <= |s| && s[..|sep|] == sep then [""] + Split(s[|sep|..], sep)
    else if s == [] then [""]
    else
      var rest := Split(s[1..], sep);
      [[s[0]] + rest[0]] + rest[1..]
  }

  /** Joining the pieces of a split with the same separator gives back the
      string. */
  lemma {:induction false} JoinSplit(s: string, sep: string)
    requires sep != []
    ensures Join(Split(s, sep), sep) == s
    decreases |s|
  {
    if |sep| <= |s| && s[..|sep|] == sep {
      JoinSplit(s[|sep|..], sep);
      JoinSplitAtSeparator(s, sep);
    } else if s != [] {
      JoinSplit(s[1..], sep);
      JoinSplitAtCharacter(s, sep);
    }
  }

  lemma {:induction false} JoinSplitAtSeparator(s: string, sep: string)
    requires sep != [] && |sep| <= |s| && s[..|sep|] == sep
    requires Join(Split(s[|sep|..], sep), sep) == s[|sep|..]
    ensures Join(Split(s, sep), sep) == s
  {
    var t := s[|sep|..];
    var rest := Split(t, sep);
    assert Split(s, sep) == [""] + rest;
    JoinCons("", rest, sep);
    assert Join([""] + rest, sep) == "" + sep + t;
    assert "" + sep + t == sep + t;
    assert s == sep + t by {
      assert s == s[..|sep|] + t;
    }
  }

  lemma {:induction false} JoinSplitAtCharacter(s: string, sep: string)
    requires sep != [] && s != [] && !(|sep| <= |s| && s[..|sep|] == sep)
    requires Join(Split(s[1..], sep), sep) == s[1..]
    ensures Join(Split(s, sep), sep) == s
  {
    var rest := Split(s[1..], sep);
    assert Split(s, sep) == [[s[0]] + rest[0]] + rest[1..];
    JoinSplitStep(s[0], rest, sep);
    assert s == [s[0]] + s[1..];
  }

  /** Prepending a character to the first piece prepends it to the join. */
  lemma {:induction false} JoinSplitStep(c: char, rest: seq<string>, sep: string)
    requires rest != []
    ensures Join([[c] + rest[0]] + rest[1..], sep) == [c] + Join(rest, sep)
  {
    if |rest| > 1 {
      JoinCons([c] + rest[0], rest[1..], sep);
      JoinCons(rest[0], rest[1..], sep);
      assert rest == [rest[0]] + rest[1..];
    }
  }

  /** A string in which the separator's first character never occurs splits
      into itself alone. */
  lemma {:induction false} SplitWithoutSeparator(s: string, sep: string)
    requires sep != []
    requires forall i :: 0 <= i < |s| ==> s[i] != sep[0]
    ensures Split(s, sep) == [s]
    decreases |s|
  {
    if s != [] {
      assert s[0] != sep[0];
      SplitWithoutSeparator(s[1..], sep);
      assert s == [s[0]] + s[1..];
    }
  }

  /** Splitting on a one-character separator cuts at its first occurrence. */
  lemma {:induction false} SplitAtFirst(a: string, c: char, b: string)
    requires forall i :: 0 <= i < |a| ==> a[i] != c
    ensures Split(a + [c] + b, [c]) == [a] + Split(b, [c])
    decreases |a|
  {
    var s := a + [c] + b;
    if a == [] {
      assert s[..1] == [c] && s[1..] == b;
    } else {
      assert s[0] == a[0] != c;
      assert s[1..] == a[1..] + [c] + b;
      SplitAtFirst(a[1..], c, b);
      assert [a[0]] + a[1..] == a;
    }
  }

  /** Splitting a join of parts free of a one-character separator gives the
      parts back: the converse of `JoinSplit`. */
  lemma {:induction false} SplitOfJoin(parts: seq<string>, c: char)
    requires parts != []
    requires forall i, j :: 0 <= i < |parts| && 0 <= j < |parts[i]| ==> parts[i][j] != c
    ensures Split(Join(parts, [c]), [c]) == parts
    decreases |parts|
  {
    if |parts| == 1 {
      SplitWithoutSeparator(parts[0], [c]);
    } else {
      var rest := parts[1..];
      assert [parts[0]] + rest == parts;
      JoinCons(parts[0], rest, [c]);
      SplitAtFirst(parts[0], c, Join(rest, [c]));
      SplitOfJoin(rest, c);
    }
  }

  // ---------------------------------------------------------------------
  // s.split()

  /** Length of the run of non-whitespace characters that starts `s`. */
  function WordLen(s: string): (n: nat)
    ensures n <= |s|
    ensures NoWhitespace(s[..n])
    ensures n < |s| ==> IsSpace(s[n])
    decreases |s|
  {
    if s == [] || IsSpace(s[0]) then 0
    else
      var n := 1 + WordLen(s[1..]);
      assert s[..n] == [s[0]] + s[1..][..n - 1];
      n
  }

  /** `s.split()`: the maximal runs of non-whitespace characters, in order. */
  function Words(s: string): seq<string>
    decreases |s|
  {
    if s == [] then []
    else if IsSpace(s[0]) then Words(s[1..])
    else
      var n := WordLen(s);
      [s[..n]] + Words(s[n..])
  }

  /** Every word is non-empty and holds no whitespace. */
  lemma {:induction false} WordsAreTokens(s: string)
    ensures forall i :: 0 <= i < |Words(s)| ==> Words(s)[i] != [] && NoWhitespace(Words(s)[i])
    decreases |s|
  {
    if s == [] {
    } else if IsSpace(s[0]) {
      WordsAreTokens(s[1..]);
    } else {
      var n := WordLen(s);
      WordsAreTokens(s[n..]);
      assert Words(s) == [s[..n]] + Words(s[n..]);
    }
  }

  /** A string has no words exactly when it is all whitespace. */
  lemma {:induction false} NoWordsIffAllSpace(s: string)
    ensures Words(s) == [] <==> AllSpace(s)
    decreases |s|
  {
    if s != [] {
      if IsSpace(s[0]) {
        NoWordsIffAllSpace(s[1..]);
        assert AllSpace(s) <==> AllSpace(s[1..]) by {
          assert forall i :: 1 <= i < |s| ==> s[i] == s[1..][i - 1];
        }
      } else {
        assert !AllSpace(s);
      }
    }
  }

  lemma {:induction false} WordLenStopsAtSpace(a: string, b: string)
    requires b != [] && IsSpace(b[0])
    ensures WordLen(a + b) == WordLen(a)
    decreases |a|
  {
    if a != [] && !IsSpace(a[0]) {
      assert (a + b)[1..] == a[1..] + b;
      WordLenStopsAtSpace(a[1..], b);
    } else if a == [] {
      assert a + b == b;
    }
  }

  /** A space between two strings separates their words. */
  lemma {:induction false} WordsAroundSpace(a: string, b: string)
    ensures Words(a + " " + b) == Words(a) + Words(b)
    decreases |a|
  {
    var s := a + " " + b;
    if a == [] {
      assert s[0] == ' ' && s[1..] == b;
    } else if IsSpace(a[0]) {
      assert s[0] == a[0] && s[1..] == a[1..] + " " + b;
      WordsAroundSpace(a[1..], b);
    } else {
      WordsNonSpaceStart(a, b);
    }
  }

  lemma {:induction false} WordsNonSpaceStart(a: string, b: string)
    requires a != [] && !IsSpace(a[0])
    ensures Words(a + " " + b) == Words(a) + Words(b)
    decreases |a|, 0
  {
    var s := a + " " + b;
    var n := WordLen(a);
    assert s == a + (" " + b);
    WordLenStopsAtSpace(a, " " + b);
    assert s[0] == a[0];
    assert Words(s) == [s[..n]] + Words(s[n..]);
    assert s[..n] == a[..n];
    assert s[n..] == a[n..] + " " + b;
    WordsAroundSpace(a[n..], b);
    assert Words(a) == [a[..n]] + Words(a[n..]);
  }

  /** A word is a split of itself. */
  lemma {:induction false} WordsOfWord(t: string)
    requires t != [] && NoWhitespace(t)
    ensures Words(t) == [t]
  {
    assert WordLen(t) == |t|;
    assert t[..|t|] == t && t[|t|..] == [];
  }

  /** Stripping trailing spaces does not change the words. */
  lemma {:induction false} WordsIgnoreTrailingSpaces(s: string)
    ensures Words(RStrip(s, Chars({' '}))) == Words(s)
  {
    var r := RStrip(s, Chars({' '}));
    var tail := s[|r|..];
    if tail == [] {
      assert s == r;
    } else {
      var rest := tail[1..];
      assert Chars({' '}).Has(tail[0]);
      assert AllSpace(rest) by {
        forall i | 0 <= i < |rest|
          ensures IsSpace(rest[i])
        {
          assert rest[i] == tail[i + 1];
          assert Chars({' '}).Has(tail[i + 1]);
        }
      }
      NoWordsIffAllSpace(rest);
      assert s == r + " " + rest;
      WordsAroundSpace(r, rest);
    }
  }

  /** The words of a space-join of strings are the words of each, in order. */
  lemma {:induction false} WordsOfSpaceJoin(parts: seq<string>)
    ensures Words(Join(parts, " ")) == Concat(MapWords(parts))
    decreases |parts|
  {
    if |parts| == 0 {
    } else if |parts| == 1 {
      assert MapWords(parts) == [Words(parts[0])];
    } else {
      var init := parts[..|parts| - 1];
      WordsOfSpaceJoin(init);
      WordsAroundSpace(Join(init, " "), parts[|parts| - 1]);
      assert MapWords(parts)[..|parts| - 1] == MapWords(init);
    }
  }

  function MapWords(parts: seq<string>): (r: seq<seq<string>>)
    ensures |r| == |parts|
    ensures forall i :: 0 <= i < |parts| ==> r[i] == Words(parts[i])
  {
    seq(|parts|, i requires 0 <= i < |parts| => Words(parts[i]))
  }

  /** The concatenation of a sequence of sequences, in order. */
  function Concat<T>(xss: seq<seq<T>>): seq<T>
    decreases |xss|
  {
    if xss == [] then [] else Concat(xss[..|xss| - 1]) + xss[|xss| - 1]
  }

  // ---------------------------------------------------------------------
  // str(n) for a non-negative int

  predicate IsDigit(c: char) {
    '0' <= c <= '9'
  }

  predicate AllDigits(s: string) {
    forall i :: 0 <= i < |s| ==> IsDigit(s[i])
  }

  function DigitChar(d: nat): (c: char)
    requires d < 10
    ensures IsDigit(c) && c as int - '0' as int == d
  {
    ('0' as int + d) as char
  }

  /** `str(n)`: the decimal numeral of `n`, with no leading zero. */
  function Digits(n: nat): (r: string)
    ensures r != [] && AllDigits(r)
    ensures r[0] == '0' ==> n == 0
  {
    if n < 10 then [DigitChar(n)] else Digits(n / 10) + [DigitChar(n % 10)]
  }

  /** The value of a numeral (Python's `int(s)` on a string of digits). */
  function DecimalValue(s: string): nat
    requires AllDigits(s)
    decreases |s|
  {
    if s == [] then 0
    else DecimalValue(s[..|s| - 1]) * 10 + (s[|s| - 1] as int - '0' as int)
  }

  lemma {:induction false} DecimalRoundTrip(n: nat)
    ensures DecimalValue(Digits(n)) == n
  {
    if n >= 10 {
      var d := Digits(n);
      assert d[..|d| - 1] == Digits(n / 10);
      DecimalRoundTrip(n / 10);
    }
  }

  /** Different numbers have different numerals. */
  lemma {:induction false} DigitsInjective(m: nat, n: nat)
    requires Digits(m) == Digits(n)
    ensures m == n
  {
    DecimalRoundTrip(m);
    DecimalRoundTrip(n);
  }
}
