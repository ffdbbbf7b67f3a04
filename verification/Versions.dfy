/**
  Comparing versions: an order on numeric versions and on texts, mixed when only one side is
  numeric, and exactly when picking the latest by it finds a version nothing is newer than.
*/
module Versions {
  import opened Optional
  import opened Words

  // ------------------------------------------------------- lexicographic order

  /** Python's `a > b` on lists of ints. */
  predicate Greater(a: seq<int>, b: seq<int>) {
    a != [] && (b == [] || a[0] > b[0] || (a[0] == b[0] && Greater(a[1..], b[1..])))
  }

  lemma {:induction false} GreaterTransitive(a: seq<int>, b: seq<int>, c: seq<int>)
    requires Greater(a, b) && Greater(b, c)
    ensures Greater(a, c)
  {
    if c != [] && a[0] == b[0] == c[0] { GreaterTransitive(a[1..], b[1..], c[1..]); }
  }

  lemma {:induction false} GreaterTotal(a: seq<int>, b: seq<int>)
    ensures a == b || Greater(a, b) || Greater(b, a)
    ensures !(Greater(a, b) && Greater(b, a)) && !Greater(a, a)
  {
    if a != [] && b != [] {
      GreaterTotal(a[1..], b[1..]);
      assert a == [a[0]] + a[1..] && b == [b[0]] + b[1..];
    }
    GreaterIrreflexive(a);
  }

  lemma {:induction false} GreaterIrreflexive(a: seq<int>)
    ensures !Greater(a, a)
  {
    if a != [] { GreaterIrreflexive(a[1..]); }
  }

  /** The code points of a text. */
  function Codes(s: string): seq<int> {
    seq(|s|, i requires 0 <= i < |s| => s[i] as int)
  }

  lemma CodesInjective(a: string, b: string)
    requires Codes(a) == Codes(b)
    ensures a == b
  {
    assert |a| == |Codes(a)| == |Codes(b)| == |b|;
    forall i | 0 <= i < |a| ensures a[i] == b[i] {
      assert Codes(a)[i] == a[i] as int && Codes(b)[i] == b[i] as int;
    }
  }

  // ------------------------------------------------------------------- parsing

  function DigitValue(c: char): Option<int> {
    if '0' <= c <= '9' then Some((c as int) - ('0' as int)) else None
  }

  /** Digits, with single underscores allowed between them. */
  function ParseDigits(s: string): Option<int> {
    if s == "" then None
    else
      var rest, last := s[..|s| - 1], DigitValue(s[|s| - 1]);
      if last.None? then None
      else if rest == "" then last
      else
        var high := ParseDigits(if rest[|rest| - 1] == '_' then rest[..|rest| - 1] else rest);
        if high.None? then None else Some(10 * high.value + last.value)
  }

  /** `int(s)`, None where it raises. */
  function ParseInt(s: string): Option<int> {
    var t := Strip(s);
    if t != "" && (t[0] == '-' || t[0] == '+') then
      var n := ParseDigits(t[1..]);
      if n.None? then None else Some(if t[0] == '-' then -n.value else n.value)
    else
      var n := ParseDigits(t);
      if n.None? then None else Some(n.value)
  }

  /** `s.split(".")`. */
  function SplitDots(s: string): (parts: seq<string>)
    ensures parts != []
  {
    if s == "" then [""]
    else
      var rest := SplitDots(s[1..]);
      if s[0] == '.' then [""] + rest else [[s[0]] + rest[0]] + rest[1..]
  }

  function ParseAll(parts: seq<string>): Option<seq<int>> {
    if parts == [] then Some([])
    else
      var n, rest := ParseInt(parts[0]), ParseAll(parts[1..]);
      if n.None? || rest.None? then None else Some([n.value] + rest.value)
  }

  /** The numbers of a version, None when a part of it is not one. */
  function Numbers(v: string): Option<seq<int>> {
    ParseAll(SplitDots(v))
  }

  predicate Numeric(v: string) {
    Numbers(v).Some?
  }

  /** By numbers when both have them, else as texts. */
  predicate VersionGt(new_: string, old_: string) {
    if Numeric(new_) && Numeric(old_) then Greater(Numbers(new_).value, Numbers(old_).value)
    else Greater(Codes(new_), Codes(old_))
  }

  /** The second copy of the comparison, where a version may be missing. */
  predicate ContextGt(new_: Option<string>, old_: Option<string>) {
    if new_.None? || new_.value == "" then false
    else if old_.None? || old_.value == "" then true
    else VersionGt(new_.value, old_.value)
  }

  function OrEmpty(v: Option<string>): string {
    if v.None? then "" else v.value
  }

  /** The two copies agree: a missing version is an empty one. */
  lemma CopiesAgree(new_: Option<string>, old_: Option<string>)
    ensures ContextGt(new_, old_) == VersionGt(OrEmpty(new_), OrEmpty(old_))
  {
    EmptyIsNotNumeric();
  }

  lemma EmptyIsNotNumeric()
    ensures !Numeric("")
  {
    assert SplitDots("") == [""];
    assert ParseInt("").None?;
  }

  // ---------------------------------------------------- when it is an order

  predicate TextGt(a: string, b: string) {
    Greater(Codes(a), Codes(b))
  }

  lemma TextOrder(a: string, b: string, c: string)
    ensures TextGt(a, b) && TextGt(b, c) ==> TextGt(a, c)
    ensures a != b ==> TextGt(a, b) || TextGt(b, a)
    ensures !(TextGt(a, b) && TextGt(b, a)) && !TextGt(a, a)
  {
    if TextGt(a, b) && TextGt(b, c) { GreaterTransitive(Codes(a), Codes(b), Codes(c)); }
    GreaterTotal(Codes(a), Codes(b));
    GreaterIrreflexive(Codes(a));
    if Codes(a) == Codes(b) { CodesInjective(a, b); }
  }

  /** No two versions are each newer than the other, whatever they are. */
  lemma VersionGtAsymmetric(a: string, b: string)
    ensures !(VersionGt(a, b) && VersionGt(b, a)) && !VersionGt(a, a)
  {
    TextOrder(a, b, b);
    if Numeric(a) { GreaterIrreflexive(Numbers(a).value); }
    if Numeric(a) && Numeric(b) { GreaterTotal(Numbers(a).value, Numbers(b).value); }
  }

  /** On numeric versions it is a strict weak order: versions that tie have the same numbers. */
  lemma NumericOrder(a: string, b: string, c: string)
    requires Numeric(a) && Numeric(b) && Numeric(c)
    ensures VersionGt(a, b) && VersionGt(b, c) ==> VersionGt(a, c)
    ensures !VersionGt(a, b) && !VersionGt(b, a) <==> Numbers(a) == Numbers(b)
  {
    var x, y, z := Numbers(a).value, Numbers(b).value, Numbers(c).value;
    if VersionGt(a, b) && VersionGt(b, c) { GreaterTransitive(x, y, z); }
    GreaterTotal(x, y);
    GreaterIrreflexive(x);
  }

  ghost predicate Transitive(versions: set<string>) {
    forall a, b, c | a in versions && b in versions && c in versions && VersionGt(a, b) && VersionGt(b, c) ::
        VersionGt(a, c)
  }

  /** A version that is not numeric stands, as a text, between two numeric ones that are not in that order. */
  ghost predicate Straddled(versions: set<string>) {
    exists high, mid, low | high in versions && mid in versions && low in versions :: Straddles(high, mid, low)
  }

  predicate Straddles(high: string, mid: string, low: string) {
    Numeric(high) && !Numeric(mid) && Numeric(low) && TextGt(high, mid) && TextGt(mid, low) && !VersionGt(high, low)
  }

  /** Three versions at a time: a chain is broken only by a straddled pair among them. */
  lemma ChainHolds(a: string, b: string, c: string)
    requires VersionGt(a, b) && VersionGt(b, c) && !VersionGt(a, c)
    ensures Straddles(a, b, c) || Straddles(b, c, a) || Straddles(c, a, b)
  {
    TextOrder(a, b, c);
    TextOrder(c, a, b);
    TextOrder(b, c, a);
    if Numeric(a) && Numeric(c) {
      if Numeric(b) { NumericOrder(a, b, c); }
    } else if Numeric(a) && Numeric(b) {
      VersionGtAsymmetric(a, b);
    } else if Numeric(b) && Numeric(c) {
      VersionGtAsymmetric(b, c);
    }
  }

  /** The comparison is transitive on exactly the version sets without such a pair. */
  lemma TransitiveIffNotStraddled(versions: set<string>)
    ensures Transitive(versions) <==> !Straddled(versions)
  {
    if Straddled(versions) {
      var high, mid, low :| high in versions && mid in versions && low in versions && Straddles(high, mid, low);
      assert VersionGt(high, mid) && VersionGt(mid, low);
    }
    if !Transitive(versions) {
      var a, b, c :| a in versions && b in versions && c in versions && VersionGt(a, b) && VersionGt(b, c)
          && !VersionGt(a, c);
      ChainHolds(a, b, c);
    }
  }

  // ------------------------------------------------------ picking the latest

  /** What the fold over a listing picks: a later one replaces the pick when it is newer. */
  function Latest(listing: seq<string>): string
    requires listing != []
  {
    if |listing| == 1 then listing[0]
    else
      var best, v := Latest(listing[..|listing| - 1]), listing[|listing| - 1];
      if VersionGt(v, best) then v else best
  }

  /** Nothing listed is newer. */
  ghost predicate Newest(listing: seq<string>, v: string) {
    v in listing && forall w | w in listing :: !VersionGt(w, v)
  }

  lemma {:induction false} LatestListed(listing: seq<string>)
    requires listing != []
    ensures Latest(listing) in listing
  {
    if |listing| > 1 { LatestListed(listing[..|listing| - 1]); }
  }

  lemma {:induction false} LatestIsNewest(versions: set<string>, listing: seq<string>)
    requires listing != [] && Transitive(versions) && forall v | v in listing :: v in versions
    ensures Newest(listing, Latest(listing))
  {
    var init, v := listing[..|listing| - 1], listing[|listing| - 1];
    assert forall w :: w in listing <==> w in init || w == v;
    VersionGtAsymmetric(v, v);
    if init != [] {
      LatestIsNewest(versions, init);
      var best := Latest(init);
      VersionGtAsymmetric(v, best);
      if VersionGt(v, best) {
        forall w | w in listing ensures !VersionGt(w, v) {
          assert VersionGt(w, v) ==> VersionGt(w, best);
        }
      }
    } else {
      assert Latest(listing) == v;
    }
  }

  lemma LatestOfThree(a: string, b: string, c: string)
    ensures Latest([a, b, c])
         == var best := if VersionGt(b, a) then b else a;
            if VersionGt(c, best) then c else best
  {
    assert [a, b, c][..2] == [a, b] && [a, b][..1] == [a];
    assert Latest([a]) == a;
    assert Latest([a, b]) == if VersionGt(b, a) then b else a;
  }

  /** A straddled pair has a listing from which a version is picked that another one beats. */
  lemma StraddledMisses(high: string, mid: string, low: string)
    requires Straddles(high, mid, low)
    ensures exists listing | listing != [] && (forall v | v in listing :: v == high || v == mid || v == low) ::
              !Newest(listing, Latest(listing))
  {
    VersionGtAsymmetric(high, mid);
    VersionGtAsymmetric(mid, low);
    var listing := [low, high, mid];
    LatestOfThree(low, high, mid);
    assert Latest(listing) == mid && high in listing;
  }

  /** The pick is the newest in every listing over exactly the version sets without a straddled pair. */
  lemma LatestIsNewestIff(versions: set<string>)
    ensures (forall listing | listing != [] && (forall v | v in listing :: v in versions) ::
              Newest(listing, Latest(listing)))
            <==> !Straddled(versions)
  {
    TransitiveIffNotStraddled(versions);
    if Straddled(versions) {
      var high, mid, low :| high in versions && mid in versions && low in versions && Straddles(high, mid, low);
      StraddledMisses(high, mid, low);
    } else {
      forall listing | listing != [] && (forall v | v in listing :: v in versions)
        ensures Newest(listing, Latest(listing))
      {
        LatestIsNewest(versions, listing);
      }
    }
  }

  /** Versions that are all numeric, and versions none of which is, have no straddled pair. */
  lemma UniformVersionsAreOrdered(versions: set<string>)
    requires (forall v | v in versions :: Numeric(v)) || (forall v | v in versions :: !Numeric(v))
    ensures !Straddled(versions)
  {
  }

  lemma {:induction false} NoDots(s: string)
    requires '.' !in s
    ensures SplitDots(s) == [s]
  {
    if s != "" {
      NoDots(s[1..]);
      assert [s[0]] + s[1..] == s && [s[1..]][1..] == [];
    }
  }

  lemma NumbersOf(s: string, n: nat)
    requires (s == "10" && n == 10) || (s == "9" && n == 9)
    ensures Numbers(s) == Some([n])
  {
    NoDots(s);
    assert Strip(s) == s;
    assert "10"[..1] == "1" && ParseDigits("1") == Some(1);
    assert ParseInt(s) == Some(n);
    var none: seq<int> := [];
    assert [s][1..] == [] && ParseAll([]) == Some(none) && [n as int] + none == [n];
  }

  lemma NoNumbers()
    ensures !Numeric("1a")
  {
    NoDots("1a");
    assert Strip("1a") == "1a";
    assert ParseInt("1a") == None;
  }

  /** Three versions each newer than the next, round in a circle. */
  lemma MixedVersionsCycle()
    ensures VersionGt("10", "9") && VersionGt("9", "1a") && VersionGt("1a", "10")
    ensures !Newest(["10", "1a", "9"], Latest(["10", "1a", "9"]))
  {
    NumbersOf("10", 10);
    NumbersOf("9", 9);
    NoNumbers();
    assert Codes("9")[0] > Codes("1a")[0];
    assert Codes("1a")[0] == Codes("10")[0] && Codes("1a")[1..][0] > Codes("10")[1..][0];
    LatestOfThree("10", "1a", "9");
    assert "10" in ["10", "1a", "9"];
  }
}
