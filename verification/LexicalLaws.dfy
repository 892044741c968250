/** What BM25 is for: rare terms weigh more, repetition helps, and length is held against a document (backend/ai/lexical.py). */
module LexicalLaws {
  import opened Options
  import opened Lexical

  ghost predicate IncreasingAboveOne(ln: real -> real) {
    forall x: real, y: real :: 1.0 <= x < y ==> ln(x) < ln(y)
  }

  // ----- the statistics, by counting -----

  lemma {:induction false} CountMeaning(tokens: Tokens, term: string)
    ensures Count(tokens, term) == multiset(tokens)[term]
  {
    if tokens != [] {
      CountMeaning(tokens[..|tokens| - 1], term);
      assert tokens == tokens[..|tokens| - 1] + [tokens[|tokens| - 1]];
    }
  }

  /** The documents that contain the term. */
  function Containing(docs: seq<Tokens>, term: string): set<int> {
    set i | 0 <= i < |docs| && term in docs[i]
  }

  lemma {:induction false} DocFrequencyMeaning(docs: seq<Tokens>, term: string)
    ensures DocFrequency(docs, term) == |Containing(docs, term)|
  {
    if docs != [] {
      var n := |docs| - 1;
      DocFrequencyMeaning(docs[..n], term);
      assert Containing(docs, term) == Containing(docs[..n], term) + if term in docs[n] then {n} else {};
    }
  }

  lemma {:induction false} TotalLengthCovers(docs: seq<Tokens>, i: nat)
    requires i < |docs|
    ensures TotalLength(docs) >= |docs[i]|
  {
    var n := |docs| - 1;
    if i < n { TotalLengthCovers(docs[..n], i); }
  }

  // ----- one term -----

  /** The idf is the logarithm of (n + 1) / (df + 0.5). */
  lemma IdfMeaning(ln: real -> real, n: nat, df: nat)
    requires df <= n
    ensures Idf(ln, n, df) == ln((n as real + 1.0) / (df as real + 0.5))
  {
    OnePlus(n as real - df as real + 0.5, df as real + 0.5);
  }

  // ----- quotients -----

  lemma OnePlus(x: real, d: real)
    requires d > 0.0
    ensures 1.0 + x / d == (d + x) / d
  {
    var q, r := x / d, (d + x) / d;
    assert q * d == x && r * d == d + x;
    Cancel(r, 1.0 + q, d);
  }

  lemma Cancel(x: real, y: real, d: real)
    requires d > 0.0 && x * d == y * d
    ensures x == y
  {
    assert (x - y) * d == 0.0;
  }

  lemma Positive(x: real, a: real)
    requires a > 0.0 && x * a > 0.0
    ensures x > 0.0
  {
  }

  lemma LargerNumerator(x: real, y: real, d: real)
    requires d > 0.0 && x < y
    ensures x / d < y / d
  {
    var p, q := x / d, y / d;
    assert p * d == x && q * d == y;
    assert (q - p) * d > 0.0;
    Positive(q - p, d);
  }

  lemma LargerDenominator(x: real, a: real, b: real)
    requires x > 0.0 && 0.0 < a < b
    ensures x / b < x / a
  {
    var p, q := x / b, x / a;
    assert p * b == x && q * a == x;
    Positive(p, b);
    var gap := b - a;
    assert p * gap > 0.0;
    assert q * a == p * a + p * gap;
    assert (q - p) * a == p * gap;
    Positive(q - p, a);
  }

  /** A rarer term weighs strictly more. */
  lemma RarerWeighsMore(ln: real -> real, n: nat, df: nat, df': nat)
    requires IncreasingAboveOne(ln) && df < df' <= n
    ensures Idf(ln, n, df) > Idf(ln, n, df')
  {
    IdfMeaning(ln, n, df);
    IdfMeaning(ln, n, df');
    var top, a, b := n as real + 1.0, df as real + 0.5, df' as real + 0.5;
    LargerDenominator(top, a, b);
    LargerNumerator(b, top, b);
    assert b / b == 1.0;
  }

  /** Saturation: c f / (f + k) grows with f. */
  lemma Saturates(c: real, f: real, g: real, k: real)
    requires c > 0.0 && 0.0 < f < g && k > 0.0
    ensures c * f / (f + k) < c * g / (g + k)
  {
    OneMinus(c, f, k);
    OneMinus(c, g, k);
    LargerDenominator(c * k, f + k, g + k);
  }

  lemma OneMinus(c: real, f: real, k: real)
    requires f + k > 0.0
    ensures c * f / (f + k) == c - c * k / (f + k)
  {
    var d := f + k;
    var p, q := c * f / d, c * k / d;
    assert p * d == c * f && q * d == c * k;
    Cancel(p + q, c, d);
  }

  /** idf times (k1 + 1), times the count. */
  lemma Regroup(idf: real, f: real, d: real)
    requires d != 0.0
    ensures Contribution(idf, f, d) == (idf * (K1 + 1.0)) * f / d
  {
    assert idf * (f * (K1 + 1.0)) == (idf * (K1 + 1.0)) * f;
  }

  lemma MoreOccurrences(idf: real, f: nat, g: nat, relative: real)
    requires idf > 0.0 && 0 < f < g && relative >= 0.0
    ensures Denominator(f, relative) > 0.0 && Denominator(g, relative) > 0.0
    ensures Contribution(idf, f as real, Denominator(f, relative)) < Contribution(idf, g as real, Denominator(g, relative))
  {
    Regroup(idf, f as real, Denominator(f, relative));
    Regroup(idf, g as real, Denominator(g, relative));
    Saturates(idf * (K1 + 1.0), f as real, g as real, K1 * (1.0 - B + B * relative));
  }

  lemma LongerDocument(idf: real, f: nat, relative: real, relative': real)
    requires idf > 0.0 && f > 0 && 0.0 <= relative < relative'
    ensures Denominator(f, relative) > 0.0 && Denominator(f, relative') > 0.0
    ensures Contribution(idf, f as real, Denominator(f, relative)) > Contribution(idf, f as real, Denominator(f, relative'))
  {
    Regroup(idf, f as real, Denominator(f, relative));
    Regroup(idf, f as real, Denominator(f, relative'));
    var c := idf * (K1 + 1.0);
    assert c > 0.0 && c * f as real > 0.0;
    LargerDenominator(c * f as real, Denominator(f, relative), Denominator(f, relative'));
  }

  lemma HigherIdf(idf: real, idf': real, f: real, d: real)
    requires idf > idf' > 0.0 && f > 0.0 && d > 0.0
    ensures Contribution(idf, f, d) > Contribution(idf', f, d)
  {
    var k := f * (K1 + 1.0);
    assert (idf - idf') * k > 0.0;
    assert idf * k - idf' * k == (idf - idf') * k;
    LargerNumerator(idf' * k, idf * k, d);
  }

  /** Of two documents of the same length, the one with more occurrences of a term gets more for it. */
  lemma MoreOccurrencesScoreMore(ln: real -> real, docs: seq<Tokens>, i: nat, j: nat, term: string)
    requires PositiveAboveOne(ln) && i < |docs| && j < |docs| && |docs[i]| == |docs[j]|
    requires Count(docs[i], term) < Count(docs[j], term)
    ensures TermScore(ln, docs, i, term) < TermScore(ln, docs, j, term)
  {
    if Count(docs[i], term) == 0 {
      TermScoreBounds(ln, docs, j, term);
    } else {
      IdfIsPositive(ln, |docs|, DocFrequency(docs, term));
      RelativeLengthIsNonNegative(docs, i);
      MoreOccurrences(Idf(ln, |docs|, DocFrequency(docs, term)), Count(docs[i], term), Count(docs[j], term), RelativeLength(docs, i));
    }
  }

  lemma LongerIsRelativelyLonger(docs: seq<Tokens>, i: nat, j: nat)
    requires i < |docs| && j < |docs| && |docs[i]| < |docs[j]|
    ensures 0.0 <= RelativeLength(docs, i) < RelativeLength(docs, j)
  {
    TotalLengthCovers(docs, j);
    RelativeLengthIsNonNegative(docs, i);
    var total, n := TotalLength(docs) as real, |docs| as real;
    var average := total / n;
    assert average * n == total;
    Positive(average, n);
    LargerNumerator(|docs[i]| as real, |docs[j]| as real, average);
  }

  /** Of two documents with the same number of occurrences, the shorter one gets more. */
  lemma ShorterScoresMore(ln: real -> real, docs: seq<Tokens>, i: nat, j: nat, term: string)
    requires PositiveAboveOne(ln) && i < |docs| && j < |docs| && |docs[i]| < |docs[j]|
    requires term in docs[i] && Count(docs[i], term) == Count(docs[j], term)
    ensures TermScore(ln, docs, i, term) > TermScore(ln, docs, j, term)
  {
    IdfIsPositive(ln, |docs|, DocFrequency(docs, term));
    LongerIsRelativelyLonger(docs, i, j);
    LongerDocument(Idf(ln, |docs|, DocFrequency(docs, term)), Count(docs[i], term), RelativeLength(docs, i), RelativeLength(docs, j));
  }

  lemma ContributionAtAverage(idf: real)
    ensures Denominator(1, 1.0) == K1 + 1.0
    ensures Contribution(idf, 1.0, K1 + 1.0) == idf
  {
    var d := K1 + 1.0;
    var q := idf * (1.0 * d) / d;
    assert q * d == idf * d;
    Cancel(q, idf, d);
  }

  /** One occurrence in a document of average length is worth exactly the idf. */
  lemma OnceInAnAverageDocument(ln: real -> real, docs: seq<Tokens>, i: nat, term: string)
    requires i < |docs| && Count(docs[i], term) == 1
    requires TotalLength(docs) as real / |docs| as real == |docs[i]| as real
    ensures TermScore(ln, docs, i, term) == Idf(ln, |docs|, DocFrequency(docs, term))
  {
    RelativeLengthOfAverage(docs, i);
    ContributionAtAverage(Idf(ln, |docs|, DocFrequency(docs, term)));
  }

  lemma RelativeLengthOfAverage(docs: seq<Tokens>, i: nat)
    requires i < |docs| && |docs[i]| > 0
    requires TotalLength(docs) as real / |docs| as real == |docs[i]| as real
    ensures RelativeLength(docs, i) == 1.0
  {
    OfItself(|docs[i]| as real);
  }

  lemma OfItself(len: real)
    requires len > 0.0
    ensures len / len == 1.0
  {
  }

  /** The formula with its constants: k1 + 1 is 2.5, k1 (1 - b) is 0.375 and k1 b is 1.125. */
  function Okapi(idf: real, f: nat, relative: real): real
    requires relative >= 0.0
  {
    idf * (f as real * 2.5) / (f as real + 0.375 + 1.125 * relative)
  }

  lemma OkapiFormula(ln: real -> real, docs: seq<Tokens>, i: nat, term: string)
    requires i < |docs| && term in docs[i]
    ensures RelativeLength(docs, i) >= 0.0
    ensures TermScore(ln, docs, i, term) == Okapi(Idf(ln, |docs|, DocFrequency(docs, term)), Count(docs[i], term), RelativeLength(docs, i))
  {
    RelativeLengthIsNonNegative(docs, i);
    ContributionFormula(Idf(ln, |docs|, DocFrequency(docs, term)), Count(docs[i], term), RelativeLength(docs, i));
  }

  lemma ContributionFormula(idf: real, f: nat, relative: real)
    requires relative >= 0.0 && f > 0
    ensures Denominator(f, relative) != 0.0
    ensures Contribution(idf, f as real, Denominator(f, relative)) == Okapi(idf, f, relative)
  {
    var d, e := Denominator(f, relative), f as real + 0.375 + 1.125 * relative;
    assert d == e;
    assert K1 + 1.0 == 2.5;
    assert idf * (f as real * (K1 + 1.0)) / d == idf * (f as real * 2.5) / e;
  }

  // ----- two documents -----

  lemma SameTermScore(ln: real -> real, docs: seq<Tokens>, i: nat, j: nat, term: string)
    requires i < |docs| && j < |docs| && |docs[i]| == |docs[j]| && Count(docs[i], term) == Count(docs[j], term)
    ensures TermScore(ln, docs, i, term) == TermScore(ln, docs, j, term)
  {
    assert RelativeLength(docs, i) == RelativeLength(docs, j);
  }

  lemma {:induction false} SameScore(ln: real -> real, docs: seq<Tokens>, i: nat, j: nat, terms: seq<string>)
    requires i < |docs| && j < |docs| && |docs[i]| == |docs[j]|
    requires forall u :: u in terms ==> Count(docs[i], u) == Count(docs[j], u)
    ensures Score(ln, docs, i, terms) == Score(ln, docs, j, terms)
  {
    if terms != [] {
      var n := |terms| - 1;
      var u := terms[n];
      assert u in terms;
      SameScore(ln, docs, i, j, terms[..n]);
      SameTermScore(ln, docs, i, j, u);
    }
  }

  /** Documents i and j match one of the terms s and t each, equally often, and are alike for every other term. */
  predicate DifferIn(docs: seq<Tokens>, i: nat, j: nat, terms: seq<string>, s: string, t: string) {
    && i < |docs| && j < |docs| && |docs[i]| == |docs[j]|
    && s in terms && t in terms && s in docs[i] && s !in docs[j] && t in docs[j] && t !in docs[i]
    && Count(docs[i], s) == Count(docs[j], t)
    && forall u :: u in terms && u != s && u != t ==> Count(docs[i], u) == Count(docs[j], u)
  }

  lemma RarerTermScoresMore(ln: real -> real, docs: seq<Tokens>, i: nat, j: nat, s: string, t: string)
    requires PositiveAboveOne(ln) && IncreasingAboveOne(ln)
    requires i < |docs| && j < |docs| && |docs[i]| == |docs[j]| && s in docs[i] && t in docs[j]
    requires Count(docs[i], s) == Count(docs[j], t) && DocFrequency(docs, s) < DocFrequency(docs, t)
    ensures TermScore(ln, docs, i, s) > TermScore(ln, docs, j, t)
  {
    RarerWeighsMore(ln, |docs|, DocFrequency(docs, s), DocFrequency(docs, t));
    IdfIsPositive(ln, |docs|, DocFrequency(docs, t));
    RelativeLengthIsNonNegative(docs, i);
    assert RelativeLength(docs, i) == RelativeLength(docs, j);
    HigherIdf(Idf(ln, |docs|, DocFrequency(docs, s)), Idf(ln, |docs|, DocFrequency(docs, t)),
              Count(docs[i], s) as real, Denominator(Count(docs[i], s), RelativeLength(docs, i)));
  }

  /** The other terms of a list without repetitions. */
  lemma Without(terms: seq<string>, s: string) returns (k: nat, rest: seq<string>)
    requires s in terms && forall a, b :: 0 <= a < b < |terms| ==> terms[a] != terms[b]
    ensures k < |terms| && terms[k] == s && rest == terms[..k] + terms[k + 1..]
    ensures forall u :: u in rest <==> u in terms && u != s
    ensures forall a, b :: 0 <= a < b < |rest| ==> rest[a] != rest[b]
  {
    k :| 0 <= k < |terms| && terms[k] == s;
    rest := terms[..k] + terms[k + 1..];
    assert terms == terms[..k] + [s] + terms[k + 1..];
  }

  /** Of two such documents the one with the rarer term scores higher ... */
  lemma RarerMatchScoresMore(ln: real -> real, docs: seq<Tokens>, i: nat, j: nat, terms: seq<string>, s: string, t: string)
    requires PositiveAboveOne(ln) && IncreasingAboveOne(ln)
    requires forall a, b :: 0 <= a < b < |terms| ==> terms[a] != terms[b]
    requires DifferIn(docs, i, j, terms, s, t) && DocFrequency(docs, s) < DocFrequency(docs, t)
    ensures Score(ln, docs, i, terms) > Score(ln, docs, j, terms)
  {
    var a, rest := Without(terms, s);
    var b, others := Without(rest, t);
    ScoreWithout(ln, docs, i, terms, a);
    ScoreWithout(ln, docs, j, terms, a);
    ScoreWithout(ln, docs, i, rest, b);
    ScoreWithout(ln, docs, j, rest, b);
    SameScore(ln, docs, i, j, others);
    RarerTermScoresMore(ln, docs, i, j, s, t);
    Unmatched(ln, docs, i, t);
    Unmatched(ln, docs, j, s);
  }

  lemma Unmatched(ln: real -> real, docs: seq<Tokens>, i: nat, term: string)
    requires i < |docs| && term !in docs[i]
    ensures TermScore(ln, docs, i, term) == 0.0
  {
  }

  lemma HigherComesFirst(ranked: Ranked, a: nat, b: nat)
    requires Ordered(ranked) && a < |ranked| && b < |ranked| && ranked[a].1 > ranked[b].1
    ensures a < b
  {
    forall x, y | 0 <= x < y < |ranked| ensures ranked[x].1 >= ranked[y].1 {
      assert Before(ranked[x], ranked[y]);
    }
  }

  /** ... and comes first in every ranking. */
  lemma RarerMatchRanksFirst(ln: real -> real, query: Tokens, docs: seq<Tokens>, i: nat, j: nat, terms: seq<string>, s: string, t: string,
                             ranked: Ranked)
    requires PositiveAboveOne(ln) && IncreasingAboveOne(ln) && AreTerms(terms, query)
    requires DifferIn(docs, i, j, terms, s, t) && DocFrequency(docs, s) < DocFrequency(docs, t)
    requires IsRanking(ln, query, docs, terms, ranked)
    ensures exists a, b :: 0 <= a < b < |ranked| && ranked[a].0 == i && ranked[b].0 == j
  {
    RarerMatchScoresMore(ln, docs, i, j, terms, s, t);
    assert Shares(docs[i], query) && Shares(docs[j], query);
    var x :| x in ranked && x.0 == i;
    var y :| y in ranked && y.0 == j;
    var a :| 0 <= a < |ranked| && ranked[a] == x;
    var b :| 0 <= b < |ranked| && ranked[b] == y;
    HigherComesFirst(ranked, a, b);
  }
}
