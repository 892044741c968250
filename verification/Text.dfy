/** Python's whitespace, words, lines and joins, on strings of Unicode characters. */
module Text {

  /** str.isspace. */
  predicate IsSpace(c: char) {
    var n := c as int;
    || 0x09 <= n <= 0x0d || 0x1c <= n <= 0x20 || n == 0x85 || n == 0xa0 || n == 0x1680
    || 0x2000 <= n <= 0x200a || n == 0x2028 || n == 0x2029 || n == 0x202f || n == 0x205f || n == 0x3000
  }

  /** The characters str.splitlines splits at. */
  predicate IsLineBreak(c: char) {
    var n := c as int;
    0x0a <= n <= 0x0d || 0x1c <= n <= 0x1e || n == 0x85 || n == 0x2028 || n == 0x2029
  }

  /** The length of the leading word. */
  function WordLength(s: string): (n: nat)
    ensures n <= |s|
    ensures forall i :: 0 <= i < n ==> !IsSpace(s[i])
    ensures n < |s| ==> IsSpace(s[n])
  {
    if s == "" || IsSpace(s[0]) then 0 else 1 + WordLength(s[1..])
  }

  /** s.split(). */
  function Words(s: string): seq<string> {
    if s == "" then []
    else if IsSpace(s[0]) then Words(s[1..])
    else [s[..WordLength(s)]] + Words(s[WordLength(s)..])
  }

  function AllWords(parts: seq<string>): seq<string> {
    if parts == [] then [] else Words(parts[0]) + AllWords(parts[1..])
  }

  function Lstrip(s: string): string {
    if s != "" && IsSpace(s[0]) then Lstrip(s[1..]) else s
  }

  function Rstrip(s: string): string {
    if s != "" && IsSpace(s[|s| - 1]) then Rstrip(s[..|s| - 1]) else s
  }

  /** s.strip(). */
  function Strip(s: string): string {
    Rstrip(Lstrip(s))
  }

  function Join(parts: seq<string>, sep: string): string {
    if parts == [] then ""
    else if |parts| == 1 then parts[0]
    else parts[0] + sep + Join(parts[1..], sep)
  }

  /** s.split("\n\n"): greedy from the left. */
  function SplitBlank(s: string): (r: seq<string>)
    ensures r != []
  {
    if |s| < 2 then [s]
    else if s[0] == '\n' && s[1] == '\n' then [""] + SplitBlank(s[2..])
    else
      var rest := SplitBlank(s[1..]);
      [[s[0]] + rest[0]] + rest[1..]
  }

  function LineLength(s: string): (n: nat)
    ensures n <= |s|
    ensures n < |s| ==> IsLineBreak(s[n])
  {
    if s == "" || IsLineBreak(s[0]) then 0 else 1 + LineLength(s[1..])
  }

  /** s.splitlines(): a carriage return and a line feed together end one line. */
  function SplitLines(s: string): seq<string> {
    if s == "" then []
    else
      var n := LineLength(s);
      if n == |s| then [s]
      else
        var ended := if s[n] == '\r' && n + 1 < |s| && s[n + 1] == '\n' then n + 2 else n + 1;
        [s[..n]] + SplitLines(s[ended..])
  }

  // ----- words of concatenations -----

  predicate Blank(s: string) {
    forall i :: 0 <= i < |s| ==> IsSpace(s[i])
  }

  lemma Assoc<T>(a: seq<T>, b: seq<T>, c: seq<T>)
    ensures (a + b) + c == a + (b + c)
  {
  }

  /** Where two strings meet at a space, their words do not run together. */
  lemma {:induction false} WordsOfConcat(a: string, b: string)
    requires a == "" || b == "" || IsSpace(a[|a| - 1]) || IsSpace(b[0])
    ensures Words(a + b) == Words(a) + Words(b)
  {
    if a == "" {
      assert a + b == b;
    } else if b == "" {
      assert a + b == a;
    } else if IsSpace(a[0]) {
      WordsAfterSpace(a, b);
      var rest := a[1..];
      assert rest == "" || rest[|rest| - 1] == a[|a| - 1];
      WordsOfConcat(rest, b);
    } else {
      LeadingWord(a, b);
      WordsAfterFirst(a, b, WordLength(a));
      var rest := a[WordLength(a)..];
      assert rest == "" || rest[|rest| - 1] == a[|a| - 1];
      WordsOfConcat(rest, b);
      Assoc([a[..WordLength(a)]], Words(rest), Words(b));
    }
  }

  lemma WordsAfterSpace(a: string, b: string)
    requires a != "" && IsSpace(a[0])
    ensures Words(a) == Words(a[1..])
    ensures Words(a + b) == Words(a[1..] + b)
  {
    assert (a + b)[1..] == a[1..] + b;
  }

  lemma WordsAfterFirst(a: string, b: string, n: nat)
    requires a != "" && !IsSpace(a[0]) && n == WordLength(a) == WordLength(a + b)
    ensures n > 0
    ensures Words(a) == [a[..n]] + Words(a[n..])
    ensures Words(a + b) == [a[..n]] + Words(a[n..] + b)
  {
    assert (a + b)[..n] == a[..n];
    assert (a + b)[n..] == a[n..] + b;
  }

  lemma {:induction false} LeadingWord(a: string, b: string)
    requires a != "" && (WordLength(a) < |a| || b == "" || IsSpace(b[0]))
    ensures WordLength(a + b) == WordLength(a)
  {
    if !IsSpace(a[0]) {
      assert (a + b)[1..] == a[1..] + b;
      if |a| > 1 { LeadingWord(a[1..], b); } else { assert a[1..] + b == b; }
    }
  }

  lemma {:induction false} BlankHasNoWords(s: string)
    requires Blank(s)
    ensures Words(s) == []
  {
    if s != "" { BlankHasNoWords(s[1..]); }
  }

  lemma {:induction false} LstripKeepsWords(s: string)
    ensures Words(Lstrip(s)) == Words(s)
  {
    if s != "" && IsSpace(s[0]) { LstripKeepsWords(s[1..]); }
  }

  lemma {:induction false} RstripKeepsWords(s: string)
    ensures Words(Rstrip(s)) == Words(s)
  {
    if s != "" && IsSpace(s[|s| - 1]) {
      var last := s[|s| - 1..];
      assert s == s[..|s| - 1] + last;
      BlankHasNoWords(last);
      WordsOfConcat(s[..|s| - 1], last);
      RstripKeepsWords(s[..|s| - 1]);
    }
  }

  lemma StripKeepsWords(s: string)
    ensures Words(Strip(s)) == Words(s)
  {
    LstripKeepsWords(s);
    RstripKeepsWords(Lstrip(s));
  }

  /** Joining with a blank separator keeps the words of the parts, in order. */
  lemma {:induction false} JoinKeepsWords(parts: seq<string>, sep: string)
    requires sep != "" && Blank(sep)
    ensures Words(Join(parts, sep)) == AllWords(parts)
  {
    if |parts| == 1 {
      assert AllWords(parts[1..]) == [];
    } else if |parts| > 1 {
      var rest := Join(parts[1..], sep);
      JoinKeepsWords(parts[1..], sep);
      BlankHasNoWords(sep);
      WordsOfConcat(parts[0], sep);
      WordsOfConcat(parts[0] + sep, rest);
    }
  }

  lemma {:induction false} AllWordsOfConcat(xs: seq<string>, ys: seq<string>)
    ensures AllWords(xs + ys) == AllWords(xs) + AllWords(ys)
  {
    if xs == [] {
      assert xs + ys == ys;
    } else {
      AllWordsOfConcat(xs[1..], ys);
      assert (xs + ys)[0] == xs[0] && (xs + ys)[1..] == xs[1..] + ys;
      Assoc(Words(xs[0]), AllWords(xs[1..]), AllWords(ys));
    }
  }

  /** Splitting at blank lines and joining again gives the text back. */
  lemma {:induction false} SplitBlankJoins(s: string)
    ensures Join(SplitBlank(s), "\n\n") == s
  {
    if |s| >= 2 {
      if s[0] == '\n' && s[1] == '\n' {
        SplitBlankJoins(s[2..]);
        assert s == "\n\n" + s[2..];
        assert ([""] + SplitBlank(s[2..]))[1..] == SplitBlank(s[2..]);
      } else {
        var rest := SplitBlank(s[1..]);
        SplitBlankJoins(s[1..]);
        assert s == [s[0]] + s[1..];
        if |rest| > 1 {
          assert ([[s[0]] + rest[0]] + rest[1..])[1..] == rest[1..];
        }
      }
    }
  }

  lemma SplitBlankKeepsWords(s: string)
    ensures AllWords(SplitBlank(s)) == Words(s)
  {
    SplitBlankJoins(s);
    JoinKeepsWords(SplitBlank(s), "\n\n");
  }

  lemma WordsAroundBlank(a: string, blank: string, b: string)
    requires blank != "" && Blank(blank)
    ensures Words(a + blank + b) == Words(a) + Words(b)
  {
    BlankHasNoWords(blank);
    WordsOfConcat(a, blank);
    assert (a + blank)[|a + blank| - 1] == blank[|blank| - 1];
    WordsOfConcat(a + blank, b);
    assert Words(a) + [] == Words(a);
  }

  /** The words of a text are the words of its lines. */
  lemma {:induction false} SplitLinesKeepsWords(s: string)
    ensures AllWords(SplitLines(s)) == Words(s)
  {
    if s != "" {
      var n := LineLength(s);
      if n == |s| {
        assert AllWords([s][1..]) == [];
      } else {
        var ended := if s[n] == '\r' && n + 1 < |s| && s[n + 1] == '\n' then n + 2 else n + 1;
        assert s == s[..n] + s[n..ended] + s[ended..];
        WordsAroundBlank(s[..n], s[n..ended], s[ended..]);
        SplitLinesKeepsWords(s[ended..]);
        assert ([s[..n]] + SplitLines(s[ended..]))[1..] == SplitLines(s[ended..]);
      }
    }
  }

  // ----- strings without words -----

  lemma {:induction false} WordlessIsBlank(s: string)
    ensures Words(s) == [] <==> Blank(s)
  {
    if s != "" {
      if IsSpace(s[0]) {
        WordlessIsBlank(s[1..]);
        assert Blank(s) <==> Blank(s[1..]) by {
          assert forall i :: 0 <= i < |s[1..]| ==> s[1..][i] == s[i + 1];
          assert forall i :: 1 <= i < |s| ==> s[i] == s[1..][i - 1];
        }
      }
    }
  }

  /** What is left after stripping begins and ends with something visible. */
  lemma StripEnds(s: string)
    requires Strip(s) != ""
    ensures !IsSpace(Strip(s)[0]) && !IsSpace(Strip(s)[|Strip(s)| - 1])
  {
    LstripStarts(s);
    RstripEnds(Lstrip(s));
  }

  lemma {:induction false} LstripStarts(s: string)
    ensures Lstrip(s) != "" ==> !IsSpace(Lstrip(s)[0])
  {
    if s != "" && IsSpace(s[0]) { LstripStarts(s[1..]); }
  }

  lemma {:induction false} RstripEnds(s: string)
    ensures Rstrip(s) != "" ==> !IsSpace(Rstrip(s)[|Rstrip(s)| - 1]) && s != "" && Rstrip(s)[0] == s[0]
  {
    if s != "" && IsSpace(s[|s| - 1]) { RstripEnds(s[..|s| - 1]); }
  }

  /** A string without words strips to nothing, and no other does. */
  lemma StripOfWordless(s: string)
    ensures Strip(s) == "" <==> Words(s) == []
  {
    StripKeepsWords(s);
    WordlessIsBlank(Strip(s));
    if Strip(s) != "" { StripEnds(s); }
  }

  /** Splitting at blank lines keeps the first character in the first part ... */
  lemma SplitBlankStarts(s: string)
    requires s != "" && s[0] != '\n'
    ensures SplitBlank(s)[0] != "" && SplitBlank(s)[0][0] == s[0]
  {
  }

  predicate EndsLike(parts: seq<string>, s: string) {
    && parts != [] && s != ""
    && var last := parts[|parts| - 1];
       last != "" && last[|last| - 1] == s[|s| - 1]
  }

  lemma PrependKeepsEnd(c: char, parts: seq<string>, s: string)
    requires EndsLike(parts, s)
    ensures EndsLike([[c] + parts[0]] + parts[1..], s)
    ensures EndsLike([""] + parts, s)
  {
    var longer := [[c] + parts[0]] + parts[1..];
    if |parts| > 1 { assert longer[|longer| - 1] == parts[|parts| - 1]; }
  }

  /** ... and the last character in the last part. */
  lemma {:induction false} SplitBlankEnds(s: string)
    requires s != "" && s[|s| - 1] != '\n'
    ensures EndsLike(SplitBlank(s), s)
  {
    if |s| >= 2 {
      if s[0] == '\n' && s[1] == '\n' {
        SplitBlankEnds(s[2..]);
        PrependKeepsEnd(s[0], SplitBlank(s[2..]), s);
      } else {
        SplitBlankEnds(s[1..]);
        PrependKeepsEnd(s[0], SplitBlank(s[1..]), s);
      }
    }
  }

  // ----- words on their own -----

  predicate IsWord(w: string) {
    w != "" && forall i :: 0 <= i < |w| ==> !IsSpace(w[i])
  }

  lemma {:induction false} WordsAreWords(s: string)
    ensures forall w :: w in Words(s) ==> IsWord(w)
  {
    if s != "" {
      if IsSpace(s[0]) {
        WordsAreWords(s[1..]);
      } else {
        WordsAreWords(s[WordLength(s)..]);
      }
    }
  }

  lemma {:induction false} SingleWord(w: string)
    requires IsWord(w)
    ensures Words(w) == [w]
  {
    var n := WordLength(w);
    assert n == |w|;
    assert w[..n] == w && w[n..] == "";
  }

  /** Words joined by blanks are split into the same words again. */
  lemma {:induction false} SplitOfJoinedWords(words: seq<string>, sep: string)
    requires sep != "" && Blank(sep)
    requires forall w :: w in words ==> IsWord(w)
    ensures Words(Join(words, sep)) == words
  {
    JoinKeepsWords(words, sep);
    AllWordsOfWords(words);
  }

  lemma {:induction false} AllWordsOfWords(words: seq<string>)
    requires forall w :: w in words ==> IsWord(w)
    ensures AllWords(words) == words
  {
    if words != [] {
      SingleWord(words[0]);
      AllWordsOfWords(words[1..]);
    }
  }
}
