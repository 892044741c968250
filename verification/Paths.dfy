/** Slash-separated paths, as Vault and the GitOps repository use them. */
module Paths {

  predicate NoSlash(s: string) {
    '/' !in s
  }

  /** What follows the last slash. */
  function Tail(s: string): string {
    if s == "" || s[|s| - 1] == '/' then "" else Tail(s[..|s| - 1]) + [s[|s| - 1]]
  }

  lemma {:induction false} TailIsLastSegment(p: string, s: string)
    requires NoSlash(s)
    ensures Tail(p + "/" + s) == s
  {
    var x := p + "/" + s;
    if s == "" {
      assert x[|x| - 1] == '/';
    } else {
      assert x[..|x| - 1] == p + "/" + s[..|s| - 1];
      TailIsLastSegment(p, s[..|s| - 1]);
      assert x[|x| - 1] == s[|s| - 1];
      assert s == s[..|s| - 1] + [s[|s| - 1]];
    }
  }

  /** A path determines its last segment and what comes before it. */
  lemma LastSegment(p: string, q: string, s: string, t: string)
    requires NoSlash(s) && NoSlash(t)
    requires p + "/" + s == q + "/" + t
    ensures p == q && s == t
  {
    TailIsLastSegment(p, s);
    TailIsLastSegment(q, t);
    assert |p| == |q|;
    assert p == (p + "/" + s)[..|p|] && q == (q + "/" + t)[..|q|];
  }

  /** A fixed beginning and end determine what stands between them. */
  lemma SameMiddle(a: string, x: string, y: string, b: string)
    requires a + x + b == a + y + b
    ensures x == y
  {
    assert |a + x + b| == |a| + |x| + |b| && |a + y + b| == |a| + |y| + |b|;
    assert x == (a + x + b)[|a|..|a| + |x|];
    assert y == (a + y + b)[|a|..|a| + |y|];
  }

  lemma NoSlashIn(a: string, b: string, c: string)
    requires NoSlash(a) && NoSlash(b) && NoSlash(c)
    ensures NoSlash(a + b + c)
  {
  }
}
