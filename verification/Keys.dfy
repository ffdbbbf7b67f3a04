/**
  Composite keys built by joining parts with a separator character: when two of them coincide,
  and when they cannot.
*/
module Keys {
  function Join(a: string, sep: char, b: string): string {
    a + [sep] + b
  }

  /** The left part can be recovered when it is free of the separator. */
  lemma JoinInjective(a: string, b: string, c: string, d: string, sep: char)
    requires sep !in a && sep !in c && Join(a, sep, b) == Join(c, sep, d)
    ensures a == c && b == d
  {
    var k := Join(a, sep, b);
    assert k[|a|] == sep && k[|c|] == sep;
    assert forall i | 0 <= i < |a| :: k[i] == a[i];
    assert forall i | 0 <= i < |c| :: k[i] == c[i];
    assert |a| == |c|;
    assert a == k[..|a|] && c == k[..|c|];
    assert b == k[|a| + 1..] && d == k[|c| + 1..];
  }

  /** And when the right part is. */
  lemma JoinInjectiveRight(a: string, b: string, c: string, d: string, sep: char)
    requires sep !in b && sep !in d && Join(a, sep, b) == Join(c, sep, d)
    ensures a == c && b == d
  {
    var k := Join(a, sep, b);
    assert k[|a|] == sep && k[|c|] == sep;
    assert forall i | |a| < i < |k| :: k[i] == b[i - |a| - 1];
    assert forall i | |c| < i < |k| :: k[i] == d[i - |c| - 1];
    assert |a| == |c|;
    assert a == k[..|a|] && c == k[..|c|];
    assert b == k[|a| + 1..] && d == k[|c| + 1..];
  }

  /** The part of c that overlaps b when c is the longer left part. */
  ghost predicate Overlaps(a: string, b: string, c: string, d: string, sep: char) {
    exists w :: c == Join(a, sep, w) && b == Join(w, sep, d)
  }

  /** Two different pairs make the same key exactly when one left part swallows the other and a separator. */
  lemma JoinCollides(a: string, b: string, c: string, d: string, sep: char)
    ensures Join(a, sep, b) == Join(c, sep, d) && (a, b) != (c, d)
            <==> Overlaps(a, b, c, d, sep) || Overlaps(c, d, a, b, sep)
  {
    if Join(a, sep, b) == Join(c, sep, d) {
      if |a| < |c| {
        CollisionOverlaps(a, b, c, d, sep);
      } else if |c| < |a| {
        CollisionOverlaps(c, d, a, b, sep);
      } else {
        var k := Join(a, sep, b);
        assert a == k[..|a|] && c == k[..|c|] && b == k[|a| + 1..] && d == k[|c| + 1..];
      }
    }
    if Overlaps(a, b, c, d, sep) { OverlapCollides(a, b, c, d, sep); }
    if Overlaps(c, d, a, b, sep) { OverlapCollides(c, d, a, b, sep); }
  }

  lemma CollisionOverlaps(a: string, b: string, c: string, d: string, sep: char)
    requires Join(a, sep, b) == Join(c, sep, d) && |a| < |c|
    ensures Overlaps(a, b, c, d, sep)
  {
    var k := Join(a, sep, b);
    var w := c[|a| + 1..];
    assert c == k[..|c|] && k[|a|] == sep && a == k[..|a|];
    assert c == Join(a, sep, w);
    assert b == k[|a| + 1..] && k == c + [sep] + d;
    assert b == Join(w, sep, d);
  }

  lemma OverlapCollides(a: string, b: string, c: string, d: string, sep: char)
    requires Overlaps(a, b, c, d, sep)
    ensures Join(a, sep, b) == Join(c, sep, d) && |a| < |c|
  {
    var w :| c == Join(a, sep, w) && b == Join(w, sep, d);
    assert Join(a, sep, b) == a + [sep] + (w + [sep] + d) == (a + [sep] + w) + [sep] + d;
  }
}
