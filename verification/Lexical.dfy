/**
 BM25 ranking over the reals (backend/ai/lexical.py bm25_rank), on documents and a query that
 are already tokenized. `ln` is the natural logarithm; only its sign above 1 matters here.
 */
module Lexical {
  import opened Options

  type Tokens = seq<string>

  type Ranked = seq<(nat, real)>

  const K1 := 1.5
  const B := 0.75

  ghost predicate PositiveAboveOne(ln: real -> real) {
    forall x: real :: x > 1.0 ==> ln(x) > 0.0
  }

  // ----- the statistics -----

  /** Counter(tokens)[term]. */
  function Count(tokens: Tokens, term: string): (n: nat)
    ensures n > 0 <==> term in tokens
    ensures n <= |tokens|
  {
    if tokens == [] then 0
    else Count(tokens[..|tokens| - 1], term) + if tokens[|tokens| - 1] == term then 1 else 0
  }

  /** The number of documents that contain the term. */
  function DocFrequency(docs: seq<Tokens>, term: string): (n: nat)
    ensures n <= |docs|
  {
    if docs == [] then 0
    else DocFrequency(docs[..|docs| - 1], term) + if term in docs[|docs| - 1] then 1 else 0
  }

  function TotalLength(docs: seq<Tokens>): nat {
    if docs == [] then 0 else TotalLength(docs[..|docs| - 1]) + |docs[|docs| - 1]|
  }

  function Idf(ln: real -> real, n: nat, df: nat): real {
    ln(1.0 + (n as real - df as real + 0.5) / (df as real + 0.5))
  }

  /** len / avgdl, 0 if the average is 0. */
  function RelativeLength(docs: seq<Tokens>, i: nat): real
    requires i < |docs|
  {
    var average := TotalLength(docs) as real / |docs| as real;
    if average == 0.0 then 0.0 else |docs[i]| as real / average
  }

  function Denominator(f: nat, relative: real): real {
    f as real + K1 * (1.0 - B + B * relative)
  }

  /** What one query term adds to the score of document i. */
  function TermScore(ln: real -> real, docs: seq<Tokens>, i: nat, term: string): real
    requires i < |docs|
  {
    var f := Count(docs[i], term);
    if f == 0 then 0.0
    else
      RelativeLengthIsNonNegative(docs, i);
      Contribution(Idf(ln, |docs|, DocFrequency(docs, term)), f as real, Denominator(f, RelativeLength(docs, i)))
  }

  function Contribution(idf: real, f: real, denominator: real): real
    requires denominator != 0.0
  {
    idf * (f * (K1 + 1.0)) / denominator
  }

  function Score(ln: real -> real, docs: seq<Tokens>, i: nat, terms: seq<string>): real
    requires i < |docs|
  {
    if terms == [] then 0.0
    else Score(ln, docs, i, terms[..|terms| - 1]) + TermScore(ln, docs, i, terms[|terms| - 1])
  }

  /** The idf of the terms document i contains, summed. */
  function MatchedIdf(ln: real -> real, docs: seq<Tokens>, i: nat, terms: seq<string>): real
    requires i < |docs|
  {
    if terms == [] then 0.0
    else
      var term := terms[|terms| - 1];
      MatchedIdf(ln, docs, i, terms[..|terms| - 1]) + if term in docs[i] then Idf(ln, |docs|, DocFrequency(docs, term)) else 0.0
  }

  predicate Shares(doc: Tokens, terms: seq<string>) {
    exists term :: term in terms && term in doc
  }

  lemma RelativeLengthIsNonNegative(docs: seq<Tokens>, i: nat)
    requires i < |docs|
    ensures RelativeLength(docs, i) >= 0.0
    ensures forall f: nat :: f > 0 ==> Denominator(f, RelativeLength(docs, i)) > f as real > 0.0
  {
    var total, n, len := TotalLength(docs) as real, |docs| as real, |docs[i]| as real;
    assert total / n >= 0.0;
    if total / n > 0.0 {
      assert len / (total / n) >= 0.0;
    }
  }

  lemma IdfIsPositive(ln: real -> real, n: nat, df: nat)
    requires PositiveAboveOne(ln) && df <= n
    ensures Idf(ln, n, df) > 0.0
  {
    var above, below := n as real - df as real + 0.5, df as real + 0.5;
    assert above > 0.0 && below > 0.0;
    assert above / below > 0.0;
  }

  /** A matched term adds something positive that stays below (k1 + 1) times its idf. */
  lemma TermScoreBounds(ln: real -> real, docs: seq<Tokens>, i: nat, term: string)
    requires PositiveAboveOne(ln) && i < |docs| && term in docs[i]
    ensures 0.0 < TermScore(ln, docs, i, term) < (K1 + 1.0) * Idf(ln, |docs|, DocFrequency(docs, term))
  {
    var f := Count(docs[i], term) as real;
    var idf := Idf(ln, |docs|, DocFrequency(docs, term));
    IdfIsPositive(ln, |docs|, DocFrequency(docs, term));
    RelativeLengthIsNonNegative(docs, i);
    ContributionBounds(idf, f, Denominator(Count(docs[i], term), RelativeLength(docs, i)));
  }

  lemma ContributionBounds(idf: real, f: real, d: real)
    requires idf > 0.0 && d > f > 0.0
    ensures 0.0 < Contribution(idf, f, d) < (K1 + 1.0) * idf
  {
    var k := K1 + 1.0;
    var c := idf * k;
    assert c > 0.0;
    assert idf * (f * k) == c * f;
    assert c * f > 0.0;
    assert c * f < c * d;
    assert (c * f) / d > 0.0;
    assert (c * f) / d < (c * d) / d == c;
  }

  /**
   The score of a document is 0 if it shares no query term, and otherwise lies strictly between
   0 and (k1 + 1) times the summed idf of its matched terms.
   */
  lemma {:induction false} ScoreBounds(ln: real -> real, docs: seq<Tokens>, i: nat, terms: seq<string>)
    requires PositiveAboveOne(ln) && i < |docs|
    ensures !Shares(docs[i], terms) ==> Score(ln, docs, i, terms) == 0.0
    ensures Shares(docs[i], terms) ==>
      0.0 < Score(ln, docs, i, terms) < (K1 + 1.0) * MatchedIdf(ln, docs, i, terms)
    ensures !Shares(docs[i], terms) ==> MatchedIdf(ln, docs, i, terms) == 0.0
  {
    if terms != [] {
      var n := |terms| - 1;
      var term := terms[n];
      assert terms == terms[..n] + [term];
      ScoreBounds(ln, docs, i, terms[..n]);
      if term in docs[i] { TermScoreBounds(ln, docs, i, term); }
    }
  }

  // ----- sorting by score, highest first, ties in document order -----

  predicate Before(x: (nat, real), y: (nat, real)) {
    x.1 > y.1 || (x.1 == y.1 && x.0 < y.0)
  }

  ghost predicate Ordered(r: Ranked) {
    forall a, b :: 0 <= a < b < |r| ==> Before(r[a], r[b])
  }

  function Insert(r: Ranked, x: (nat, real)): Ranked {
    if r == [] then [x]
    else if r[0].1 >= x.1 then [r[0]] + Insert(r[1..], x)
    else [x] + r
  }

  /** sort(key=score, reverse=True), which is stable. */
  function SortDescending(scored: Ranked): Ranked {
    if scored == [] then [] else Insert(SortDescending(scored[..|scored| - 1]), scored[|scored| - 1])
  }

  lemma {:induction false} InsertKeepsOrder(r: Ranked, x: (nat, real))
    requires Ordered(r) && forall a :: 0 <= a < |r| ==> r[a].0 < x.0
    ensures Ordered(Insert(r, x))
    ensures forall y :: y in Insert(r, x) <==> y in r || y == x
    ensures |Insert(r, x)| == |r| + 1
  {
    if r != [] && r[0].1 >= x.1 {
      InsertKeepsOrder(r[1..], x);
      assert r == [r[0]] + r[1..];
      assert forall y :: y in r[1..] ==> Before(r[0], y);
    } else if r != [] {
      forall b | 0 <= b < |r| ensures Before(x, r[b]) {
        if b > 0 { assert Before(r[0], r[b]); }
      }
    }
  }

  lemma {:induction false} SortedMeaning(scored: Ranked)
    requires forall a, b :: 0 <= a < b < |scored| ==> scored[a].0 < scored[b].0
    ensures Ordered(SortDescending(scored))
    ensures forall y :: y in SortDescending(scored) <==> y in scored
    ensures |SortDescending(scored)| == |scored|
  {
    if scored != [] {
      var n := |scored| - 1;
      SortedMeaning(scored[..n]);
      assert scored == scored[..n] + [scored[n]];
      forall a | 0 <= a < n ensures SortDescending(scored[..n])[a].0 < scored[n].0 {
        assert SortDescending(scored[..n])[a] in scored[..n];
      }
      InsertKeepsOrder(SortDescending(scored[..n]), scored[n]);
    }
  }

  lemma HasElement<T>(s: seq<T>)
    requires s != []
    ensures exists x :: x in s
  {
    assert s[0] in s;
  }

  /** The order leaves no choice: two ordered lists with the same entries are the same list. */
  lemma {:induction false} OrderedIsUnique(r: Ranked, s: Ranked)
    requires Ordered(r) && Ordered(s) && forall y :: y in r <==> y in s
    ensures r == s
  {
    if r == [] {
      if s != [] { HasElement(s); assert false; }
    } else {
      assert r[0] in s && s != [];
      assert s[0] in r;
      assert r[0] == s[0];
      forall y ensures y in r[1..] <==> y in s[1..] {
        if y in r[1..] { assert y in r && y != r[0]; }
        if y in s[1..] { assert y in s && y != s[0]; }
      }
      OrderedIsUnique(r[1..], s[1..]);
    }
  }

  // ----- the code -----

  /** set(tokenize(query)), in some order. */
  method DistinctTerms(tokens: Tokens) returns (terms: seq<string>)
    ensures AreTerms(terms, tokens)
  {
    terms := [];
    for i := 0 to |tokens|
      invariant forall t :: t in terms <==> t in tokens[..i]
      invariant forall a, b :: 0 <= a < b < |terms| ==> terms[a] != terms[b]
    {
      assert tokens[..i + 1] == tokens[..i] + [tokens[i]];
      if tokens[i] !in terms { terms := terms + [tokens[i]]; }
    }
    assert tokens[..|tokens|] == tokens;
  }

  /** df: the document frequency of each query term. */
  method CountFrequencies(docs: seq<Tokens>, terms: seq<string>) returns (df: map<string, nat>)
    requires forall i, j :: 0 <= i < j < |terms| ==> terms[i] != terms[j]
    ensures forall t :: t in terms ==> t in df && df[t] == DocFrequency(docs, t)
  {
    df := map t | t in terms :: 0;
    for i := 0 to |docs|
      invariant forall t :: t in terms ==> t in df && df[t] == DocFrequency(docs[..i], t)
    {
      assert docs[..i + 1][..i] == docs[..i];
      ghost var prev := df;
      for j := 0 to |terms|
        invariant forall t :: t in terms ==> t in df && df[t] == prev[t] + (if t in terms[..j] && t in docs[i] then 1 else 0)
      {
        assert terms[..j + 1] == terms[..j] + [terms[j]] && terms[j] !in terms[..j];
        if terms[j] in docs[i] { df := df[terms[j] := df[terms[j]] + 1]; }
      }
      assert terms[..|terms|] == terms;
    }
    assert docs[..|docs|] == docs;
  }

  /** The score loop of one document. */
  method ScoreDocument(ln: real -> real, docs: seq<Tokens>, i: nat, terms: seq<string>, df: map<string, nat>) returns (score: real)
    requires i < |docs|
    requires forall t :: t in terms ==> t in df && df[t] == DocFrequency(docs, t)
    ensures score == Score(ln, docs, i, terms)
  {
    score := 0.0;
    RelativeLengthIsNonNegative(docs, i);
    for j := 0 to |terms|
      invariant score == Score(ln, docs, i, terms[..j])
    {
      assert terms[..j + 1][..j] == terms[..j];
      var term := terms[j];
      var f := Count(docs[i], term);
      if f != 0 {
        var idf := Idf(ln, |docs|, df[term]);
        score := score + Contribution(idf, f as real, Denominator(f, RelativeLength(docs, i)));
      }
    }
    assert terms[..|terms|] == terms;
  }

  /** What bm25_rank promises about its result. */
  ghost predicate IsRanking(ln: real -> real, query: Tokens, docs: seq<Tokens>, terms: seq<string>, ranked: Ranked) {
    && Ordered(ranked)
    && (forall e :: e in ranked ==> e.0 < |docs| && e.1 == Score(ln, docs, e.0, terms))
    && (forall i :: 0 <= i < |docs| ==> (Shares(docs[i], query) <==> exists e :: e in ranked && e.0 == i))
  }

  /** The distinct terms of the query, in some order. */
  ghost predicate AreTerms(terms: seq<string>, query: Tokens) {
    && (forall t :: t in terms <==> t in query)
    && forall i, j :: 0 <= i < j < |terms| ==> terms[i] != terms[j]
  }

  /**
   bm25_rank: exactly the documents that share a query term, each once with its score, highest
   first and ties in document order.
   */
  method Bm25Rank(ln: real -> real, query: Tokens, docs: seq<Tokens>) returns (ranked: Ranked)
    requires PositiveAboveOne(ln)
    ensures exists terms :: AreTerms(terms, query) && IsRanking(ln, query, docs, terms, ranked)
  {
    var q := DistinctTerms(query);
    assert AreTerms(q, query);
    if q == [] || docs == [] {
      ranked := [];
      assert IsRanking(ln, query, docs, q, ranked);
      return;
    }
    var df := CountFrequencies(docs, q);
    var scored: Ranked := [];
    for i := 0 to |docs|
      invariant forall e :: e in scored ==> e.0 < i && e.1 == Score(ln, docs, e.0, q)
      invariant forall k :: 0 <= k < i ==> (Shares(docs[k], q) <==> exists e :: e in scored && e.0 == k)
      invariant forall a, b :: 0 <= a < b < |scored| ==> scored[a].0 < scored[b].0
    {
      ScoreBounds(ln, docs, i, q);
      ghost var prev := scored;
      if docs[i] != [] {
        var score := ScoreDocument(ln, docs, i, q, df);
        if score > 0.0 {
          scored := scored + [(i, score)];
          assert scored[|prev|] == (i, score);
        }
      }
      assert forall e :: e in prev ==> e in scored;
    }
    ranked := SortDescending(scored);
    SortedMeaning(scored);
    forall k | 0 <= k < |docs| ensures Shares(docs[k], query) == Shares(docs[k], q) {
    }
    assert IsRanking(ln, query, docs, q, ranked);
  }

  /** No score reaches (k1 + 1) times the idf it can draw on, and every returned score is positive. */
  lemma RankedScoresAreBounded(ln: real -> real, query: Tokens, docs: seq<Tokens>, terms: seq<string>, ranked: Ranked, e: (nat, real))
    requires PositiveAboveOne(ln) && IsRanking(ln, query, docs, terms, ranked)
    requires AreTerms(terms, query) && e in ranked
    ensures e.0 < |docs| && 0.0 < e.1 < (K1 + 1.0) * MatchedIdf(ln, docs, e.0, terms)
  {
    assert Shares(docs[e.0], query);
    ScoreBounds(ln, docs, e.0, terms);
  }

  // ----- the order of the query terms does not matter -----

  /** Visiting the terms in another order gives the same score: real addition commutes. */
  lemma {:induction false} ScoreWithout(ln: real -> real, docs: seq<Tokens>, i: nat, terms: seq<string>, k: nat)
    requires i < |docs| && k < |terms|
    ensures Score(ln, docs, i, terms) == Score(ln, docs, i, terms[..k] + terms[k + 1..]) + TermScore(ln, docs, i, terms[k])
  {
    var n := |terms| - 1;
    var rest := terms[..k] + terms[k + 1..];
    if k < n {
      ScoreWithout(ln, docs, i, terms[..n], k);
      assert terms[..n][..k] + terms[..n][k + 1..] == rest[..n - 1];
      assert rest[n - 1] == terms[n];
    } else {
      assert rest == terms[..n];
    }
  }

  lemma {:induction false} ScoreIgnoresOrder(ln: real -> real, docs: seq<Tokens>, i: nat, p: seq<string>, q: seq<string>)
    requires i < |docs|
    requires (forall a, b :: 0 <= a < b < |p| ==> p[a] != p[b]) && (forall a, b :: 0 <= a < b < |q| ==> q[a] != q[b])
    requires forall t :: t in p <==> t in q
    ensures Score(ln, docs, i, p) == Score(ln, docs, i, q)
  {
    if p == [] {
      if q != [] { HasElement(q); assert false; }
    } else {
      var n := |p| - 1;
      assert p[n] in q;
      var k :| 0 <= k < |q| && q[k] == p[n];
      var rest := q[..k] + q[k + 1..];
      ScoreWithout(ln, docs, i, q, k);
      forall t ensures t in p[..n] <==> t in rest {
        if t in p[..n] { assert t in p && t != p[n]; }
        if t in rest { assert t in q && t != q[k]; }
      }
      ScoreIgnoresOrder(ln, docs, i, p[..n], rest);
    }
  }

  /** So the result is one and the same list, in whatever order the set of query terms is visited. */
  lemma RankingIsUnique(ln: real -> real, query: Tokens, docs: seq<Tokens>, p: seq<string>, q: seq<string>, r: Ranked, s: Ranked)
    requires AreTerms(p, query) && AreTerms(q, query)
    requires IsRanking(ln, query, docs, p, r) && IsRanking(ln, query, docs, q, s)
    ensures r == s
  {
    forall y ensures y in r <==> y in s {
      if y in r {
        assert Shares(docs[y.0], query);
        ScoreIgnoresOrder(ln, docs, y.0, p, q);
        var e :| e in s && e.0 == y.0;
        assert e == y;
      }
      if y in s {
        assert Shares(docs[y.0], query);
        ScoreIgnoresOrder(ln, docs, y.0, p, q);
        var e :| e in r && e.0 == y.0;
        assert e == y;
      }
    }
    OrderedIsUnique(r, s);
  }
}
