/**
  Picking the latest version from files in the order of their names: when the pick misses. The
  files of one skill differ in the version and all end in ".json", so they are in the order of
  the versions with that ending, which is not quite the order of the versions as texts.
*/
module NamedVersions {
  import opened Optional
  import opened Words
  import opened Versions

  // ------------------------------------------------- a version and its extension

  /** The parts of a text that has been extended: only the last part changes, and more may follow. */
  function Glue(a: seq<string>, b: seq<string>): (parts: seq<string>)
    requires a != [] && b != []
    ensures |a| <= |parts| && parts[|a| - 1] == a[|a| - 1] + b[0]
    ensures forall i | 0 <= i < |a| - 1 :: parts[i] == a[i]
  {
    a[..|a| - 1] + [a[|a| - 1] + b[0]] + b[1..]
  }

  /** The parts with one more character in front. */
  function InFront(c: char, parts: seq<string>): seq<string>
    requires parts != []
  {
    if c == '.' then [""] + parts else [[c] + parts[0]] + parts[1..]
  }

  lemma GlueInFront(c: char, a: seq<string>, b: seq<string>)
    requires a != [] && b != []
    ensures InFront(c, Glue(a, b)) == Glue(InFront(c, a), b)
  {
    if c == '.' {
      assert InFront(c, a)[..|a|] == [""] + a[..|a| - 1];
    } else if |a| == 1 {
      assert Glue(a, b) == [a[0] + b[0]] + b[1..];
      assert [c] + (a[0] + b[0]) == ([c] + a[0]) + b[0];
    } else {
      assert InFront(c, a)[..|a| - 1] == [[c] + a[0]] + a[1..][..|a| - 2];
      assert Glue(a, b)[1..] == a[1..][..|a| - 2] + [a[|a| - 1] + b[0]] + b[1..];
    }
  }

  lemma {:induction false} SplitExtended(p: string, t: string)
    ensures SplitDots(p + t) == Glue(SplitDots(p), SplitDots(t))
  {
    if p == "" {
      assert p + t == t && "" + SplitDots(t)[0] == SplitDots(t)[0];
    } else {
      assert (p + t)[0] == p[0] && (p + t)[1..] == p[1..] + t;
      SplitExtended(p[1..], t);
      GlueInFront(p[0], SplitDots(p[1..]), SplitDots(t));
    }
  }

  lemma {:induction false} ParseAllAt(parts: seq<string>)
    ensures ParseAll(parts).Some? ==>
              && |ParseAll(parts).value| == |parts|
              && forall i | 0 <= i < |parts| ::
                   ParseInt(parts[i]).Some? && ParseInt(parts[i]).value == ParseAll(parts).value[i]
  {
    if parts != [] && ParseAll(parts).Some? {
      ParseAllAt(parts[1..]);
      forall i | 0 <= i < |parts|
        ensures ParseInt(parts[i]).Some? && ParseInt(parts[i]).value == ParseAll(parts).value[i]
      {
        if i > 0 { assert parts[i] == parts[1..][i - 1]; }
      }
    }
  }

  lemma {:induction false} PrefixNotGreater(a: seq<int>, b: seq<int>)
    requires |a| <= |b| && forall i | 0 <= i < |a| :: a[i] == b[i]
    ensures !Greater(a, b)
  {
    if a != [] { PrefixNotGreater(a[1..], b[1..]); }
  }

  // ------------------------------------------------------ an int with a suffix

  predicate DigitLike(c: char) {
    '0' <= c <= '9' || c == '_'
  }

  lemma {:induction false} DigitsAreDigitLike(s: string)
    requires ParseDigits(s).Some?
    ensures s != "" && forall i | 0 <= i < |s| :: DigitLike(s[i])
    decreases |s|
  {
    var rest := s[..|s| - 1];
    if rest != "" {
      var high := if rest[|rest| - 1] == '_' then rest[..|rest| - 1] else rest;
      DigitsAreDigitLike(high);
      forall i | 0 <= i < |s| ensures DigitLike(s[i]) {
        if i < |high| { assert s[i] == high[i]; }
      }
    }
  }

  /** Nothing but digits and underscores follows the first character of an int. */
  lemma IntIsDigitLike(s: string)
    requires ParseInt(s).Some?
    ensures Strip(s) != "" && forall i | 1 <= i < |Strip(s)| :: DigitLike(Strip(s)[i])
  {
    var t := Strip(s);
    if t != "" && (t[0] == '-' || t[0] == '+') {
      DigitsAreDigitLike(t[1..]);
      assert forall i | 1 <= i < |t| :: t[i] == t[1..][i - 1];
    } else {
      DigitsAreDigitLike(t);
    }
  }

  lemma {:induction false} TrimLeftExtended(q: string, h: string)
    requires TrimLeft(q) != ""
    ensures TrimLeft(q + h) == TrimLeft(q) + h
  {
    if IsSpace(q[0]) {
      TrimLeftExtended(q[1..], h);
      assert (q + h)[1..] == q[1..] + h;
    }
  }

  lemma {:induction false} TrimRightExtended(c: string, h: string)
    ensures TrimRight(c + h) == if TrimRight(h) == "" then TrimRight(c) else c + TrimRight(h)
    ensures TrimRight(h) != "" ==> TrimRight(h)[0] == h[0]
    decreases |h|
  {
    if h == "" {
      assert c + h == c;
    } else {
      assert (c + h)[..|c + h| - 1] == c + h[..|h| - 1];
      TrimRightExtended(c, h[..|h| - 1]);
    }
  }

  /** Appending to an int something that starts below the dot leaves its value, if it stays an int. */
  lemma SameInt(q: string, h: string)
    requires ParseInt(q).Some? && ParseInt(q + h).Some? && (h == "" || h[0] < '.')
    ensures ParseInt(q + h) == ParseInt(q)
  {
    IntIsDigitLike(q);
    var c := TrimLeft(q);
    TrimLeftExtended(q, h);
    TrimRightExtended(c, h);
    if TrimRight(h) != "" {
      assert Strip(q + h)[|c|] == h[0] && !DigitLike(h[0]);
      IntIsDigitLike(q + h);
    }
  }

  lemma FirstPart(t: string)
    requires t != "" && t[0] <= '.'
    ensures SplitDots(t)[0] == "" || SplitDots(t)[0][0] < '.'
  {
  }

  lemma PartsNotNewer(a: seq<string>, b: seq<string>)
    requires a != [] && b != [] && (b[0] == "" || b[0][0] < '.')
    requires ParseAll(a).Some? && ParseAll(Glue(a, b)).Some?
    ensures !Greater(ParseAll(a).value, ParseAll(Glue(a, b)).value)
  {
    var all, k := Glue(a, b), |a| - 1;
    ParseAllAt(a);
    ParseAllAt(all);
    assert all[k] == a[k] + b[0];
    SameInt(a[k], b[0]);
    PrefixNotGreater(ParseAll(a).value, ParseAll(all).value);
  }

  /** No numeric version is newer than its own extension from a dot or anything below it. */
  lemma NotNewerThanExtension(p: string, t: string)
    requires Numeric(p) && Numeric(p + t) && t != "" && t[0] <= '.'
    ensures !VersionGt(p, p + t)
  {
    SplitExtended(p, t);
    FirstPart(t);
    PartsNotNewer(SplitDots(p), SplitDots(t));
  }

  // -------------------------------------------------------- order of file names

  /** The file of v comes after the file of w. */
  predicate NameGt(v: string, w: string) {
    TextGt(v + ".json", w + ".json")
  }

  /** The ending changes the order only between a version and one that extends it. */
  lemma {:induction false} NameOrText(v: string, w: string)
    requires NameGt(v, w) && !TextGt(v, w)
    ensures |v| < |w| && v == w[..|v|] && w[|v|] <= '.'
  {
    var a, b := v + ".json", w + ".json";
    if v == "" {
      GreaterIrreflexive(Codes(a));
      assert w != "";
      assert Codes(a)[0] == '.' as int && Codes(b)[0] == w[0] as int;
    } else if w != "" {
      assert Codes(v)[0] == v[0] as int && Codes(w)[0] == w[0] as int;
      assert Codes(a)[0] == v[0] as int && Codes(b)[0] == w[0] as int;
      assert Codes(v)[1..] == Codes(v[1..]) && Codes(w)[1..] == Codes(w[1..]);
      assert a[1..] == v[1..] + ".json" && b[1..] == w[1..] + ".json";
      assert Codes(a)[1..] == Codes(a[1..]) && Codes(b)[1..] == Codes(b[1..]);
      NameOrText(v[1..], w[1..]);
    }
  }

  /** In the order of names a newer version is also the greater text. */
  lemma NewerRises(v: string, b: string)
    requires NameGt(v, b) && VersionGt(v, b)
    ensures TextGt(v, b)
  {
    if Numeric(v) && Numeric(b) && !TextGt(v, b) {
      NameOrText(v, b);
      assert b == v + b[|v|..];
      NotNewerThanExtension(v, b[|v|..]);
    }
  }

  // -------------------------------------------------------------- the condition

  ghost predicate InNameOrder(listing: seq<string>) {
    forall i, j | 0 <= i < j < |listing| :: NameGt(listing[j], listing[i])
  }

  /** No version that is not numeric is the beginning of a numeric one listed before it. */
  ghost predicate NoStub(listing: seq<string>) {
    forall i, j | 0 <= i < j < |listing| && Numeric(listing[i]) && !Numeric(listing[j]) :: !(listing[j] <= listing[i])
  }

  /** A numeric version that is, as a text, above all that are not numeric. */
  ghost predicate OnTop(listing: seq<string>, v: string) {
    v in listing && Numeric(v) && forall x | x in listing && !Numeric(x) :: TextGt(v, x)
  }

  /** There are versions on top, and a numeric version is newer than all of them. */
  ghost predicate Overshadowed(listing: seq<string>) {
    && (exists low :: OnTop(listing, low))
    && exists high | high in listing && Numeric(high) :: forall v | OnTop(listing, v) :: VersionGt(high, v)
  }

  // ------------------------------------------------- when there is a newest one

  /** Some version on top among these that none of these on top beats. */
  lemma {:induction false} BestOnTop(listing: seq<string>, part: seq<string>) returns (best: string)
    requires exists v | v in part :: OnTop(listing, v)
    ensures best in part && OnTop(listing, best) && forall v | v in part && OnTop(listing, v) :: !VersionGt(v, best)
  {
    var n := |part| - 1;
    var init, last := part[..n], part[n];
    assert forall v :: v in part <==> v in init || v == last;
    VersionGtAsymmetric(last, last);
    if v :| v in init && OnTop(listing, v) {
      best := BestOnTop(listing, init);
      if OnTop(listing, last) && VersionGt(last, best) {
        forall v | v in part && OnTop(listing, v) ensures !VersionGt(v, last) {
          NumericOrder(v, last, best);
        }
        best := last;
      }
    } else {
      best := last;
    }
  }

  /** The greatest text among the versions that are not numeric. */
  lemma {:induction false} GreatestText(part: seq<string>) returns (best: string)
    requires exists x | x in part :: !Numeric(x)
    ensures best in part && !Numeric(best) && forall x | x in part && !Numeric(x) :: x == best || TextGt(best, x)
  {
    var n := |part| - 1;
    var init, last := part[..n], part[n];
    assert forall v :: v in part <==> v in init || v == last;
    if x :| x in init && !Numeric(x) {
      best := GreatestText(init);
      if !Numeric(last) && TextGt(last, best) {
        forall x | x in part && !Numeric(x) ensures x == last || TextGt(last, x) {
          TextOrder(last, best, x);
        }
        best := last;
      } else {
        TextOrder(best, last, best);
      }
    } else {
      best := last;
    }
  }

  lemma NewestExists(listing: seq<string>) returns (best: string)
    requires listing != [] && !Overshadowed(listing)
    ensures Newest(listing, best)
  {
    if low :| low in listing && OnTop(listing, low) {
      best := BestOnTop(listing, listing);
      forall w | w in listing ensures !VersionGt(w, best) {
        TextOrder(best, w, best);
        if Numeric(w) && VersionGt(w, best) {
          forall v | OnTop(listing, v) ensures VersionGt(w, v) { NewerThanAll(w, best, v); }
        }
      }
    } else {
      assert !OnTop(listing, listing[0]);
      best := GreatestText(listing);
      forall w | w in listing ensures !VersionGt(w, best) {
        TextOrder(w, best, w);
        if Numeric(w) {
          var x :| x in listing && !Numeric(x) && !TextGt(w, x);
          TextOrder(w, best, x);
        }
      }
    }
  }

  /** Among any versions there is one that nothing is newer than if and only if they are not overshadowed. */
  lemma NewestExistsIff(listing: seq<string>)
    requires listing != []
    ensures (exists v :: Newest(listing, v)) <==> !Overshadowed(listing)
  {
    if Overshadowed(listing) {
      var low :| OnTop(listing, low);
      var high :| high in listing && Numeric(high) && forall v | OnTop(listing, v) :: VersionGt(high, v);
      forall v | v in listing ensures exists w | w in listing :: VersionGt(w, v) {
        if OnTop(listing, v) {
          assert VersionGt(high, v);
        } else if Numeric(v) {
          var x :| x in listing && !Numeric(x) && !TextGt(v, x);
          TextOrder(v, x, v);
          assert VersionGt(x, v);
        } else {
          assert VersionGt(low, v);
        }
      }
    } else {
      var best := NewestExists(listing);
    }
  }

  // ------------------------------------------------------------------ the fold

  /** What the pick is after any part of the listing. */
  ghost predicate PickOk(listing: seq<string>, p: string) {
    && p in listing
    && (forall x | x in listing && !Numeric(x) :: x == p || TextGt(p, x))
    && (Numeric(p) ==> forall w | OnTop(listing, w) :: !VersionGt(w, p))
    && (!Numeric(p) ==> forall w | w in listing && Numeric(w) :: TextGt(p, w))
  }

  lemma PickReplaced(listing: seq<string>, p: string, v: string)
    requires PickOk(listing, p) && VersionGt(v, p)
    requires forall w | w in listing :: NameGt(v, w)
    requires !Numeric(v) ==> forall w | w in listing && Numeric(w) :: !(v <= w)
    ensures PickOk(listing + [v], v)
  {
    NewerRises(v, p);
    var all := listing + [v];
    forall x | x in all && !Numeric(x) ensures x == v || TextGt(v, x) {
      if x != v && x != p { TextOrder(v, p, x); }
    }
    if Numeric(v) {
      forall w | OnTop(all, w) ensures !VersionGt(w, v) {
        VersionGtAsymmetric(w, v);
        if w != v {
          if Numeric(p) {
            assert OnTop(listing, w);
            NumericOrder(w, v, p);
          } else {
            assert p in all;
            TextOrder(w, p, w);
            assert false;
          }
        }
      }
    } else {
      forall w | w in all && Numeric(w) ensures TextGt(v, w) {
        if !TextGt(v, w) {
          NameOrText(v, w);
        }
      }
    }
  }

  lemma PickKept(listing: seq<string>, p: string, v: string)
    requires PickOk(listing, p) && !VersionGt(v, p) && v !in listing
    ensures PickOk(listing + [v], p)
  {
    var all := listing + [v];
    TextOrder(p, v, p);
    forall w | OnTop(all, w) && w != v ensures OnTop(listing, w) {
      assert forall x | x in listing :: x in all;
    }
  }

  /** The last file comes after every other, and is no stub of one. */
  lemma LastInOrder(init: seq<string>, v: string)
    requires InNameOrder(init + [v]) && NoStub(init + [v])
    ensures InNameOrder(init) && NoStub(init) && v !in init
    ensures forall w | w in init :: NameGt(v, w)
    ensures !Numeric(v) ==> forall w | w in init && Numeric(w) :: !(v <= w)
  {
    var all := init + [v];
    assert forall i | 0 <= i < |init| :: all[i] == init[i];
    assert all[|init|] == v;
    GreaterIrreflexive(Codes(v + ".json"));
  }

  lemma FirstPick(v: string)
    ensures Latest([v]) == v && PickOk([v], v)
  {
    VersionGtAsymmetric(v, v);
  }

  lemma LatestNext(init: seq<string>, v: string)
    requires init != []
    ensures Latest(init + [v]) == if VersionGt(v, Latest(init)) then v else Latest(init)
  {
    assert (init + [v])[..|init|] == init;
  }

  lemma {:induction false} FoldPicks(listing: seq<string>)
    requires listing != [] && InNameOrder(listing) && NoStub(listing)
    ensures PickOk(listing, Latest(listing))
  {
    var init, v := listing[..|listing| - 1], listing[|listing| - 1];
    assert listing == init + [v];
    if init == [] {
      assert listing == [v];
      FirstPick(v);
    } else {
      LastInOrder(init, v);
      FoldPicks(init);
      LatestNext(init, v);
      var p := Latest(init);
      if VersionGt(v, p) { PickReplaced(init, p, v); } else { PickKept(init, p, v); }
    }
  }

  lemma PickMissesIff(listing: seq<string>, p: string)
    requires PickOk(listing, p)
    ensures Newest(listing, p) <==> !Overshadowed(listing)
  {
    if Numeric(p) {
      assert OnTop(listing, p);
      if !Newest(listing, p) {
        var w :| w in listing && VersionGt(w, p);
        TextOrder(w, p, w);
        forall v | OnTop(listing, v) ensures VersionGt(w, v) {
          NewerThanAll(w, p, v);
        }
      }
    } else {
      forall w | w in listing ensures !VersionGt(w, p) {
        TextOrder(w, p, w);
      }
      forall v ensures !OnTop(listing, v) {
        if OnTop(listing, v) { TextOrder(v, p, v); }
      }
    }
  }

  lemma NewerThanAll(w: string, p: string, v: string)
    requires Numeric(w) && Numeric(p) && Numeric(v) && VersionGt(w, p) && !VersionGt(v, p)
    ensures VersionGt(w, v)
  {
    NumericOrder(w, p, v);
    NumericOrder(v, p, w);
    NumericOrder(p, v, w);
    NumericOrder(w, v, p);
    GreaterTotal(Numbers(p).value, Numbers(v).value);
  }

  /**
    Over files in the order of their names the fold picks a version nothing is newer than, if
    and only if no numeric version is newer than all those on top.
  */
  lemma NamedLatestIsNewestIff(listing: seq<string>)
    requires listing != [] && InNameOrder(listing) && NoStub(listing)
    ensures Newest(listing, Latest(listing)) <==> !Overshadowed(listing)
  {
    FoldPicks(listing);
    PickMissesIff(listing, Latest(listing));
  }

  // ------------------------------------------------------------ two listings

  lemma Bare(s: string, core: string, n: int)
    requires '.' !in s && Strip(s) == core && ParseDigits(core) == Some(n) && core != "" && core[0] != '-'
              && core[0] != '+'
    ensures Numbers(s) == Some([n])
  {
    NoDots(s);
    var none: seq<int> := [];
    assert ParseInt(s) == Some(n);
    assert [s][1..] == [] && ParseAll([]) == Some(none) && [n] + none == [n];
  }

  lemma StubNumbers()
    ensures Numbers("\t1") == Numbers("  1") == Some([1]) && !Numeric(" ")
  {
    var a, b, c := "\t1", "  1", " ";
    assert ParseDigits("1") == Some(1);
    assert a[1..] == "1" && b[1..] == " 1" && b[1..][1..] == "1";
    assert TrimLeft("1") == "1" && TrimLeft(b[1..]) == "1" && Strip(a) == "1" && Strip(b) == "1";
    Bare(a, "1", 1);
    Bare(b, "1", 1);
    NoDots(c);
    assert c[1..] == "" && Strip(c) == "" && ParseInt(c) == None;
  }

  lemma StubOrder()
    ensures InNameOrder(["\t1", "  1", " "]) && TextGt(" ", "\t1") && TextGt("  1", " ")
  {
    var a, b, c := "\t1", "  1", " ";
    First(c, a);
    Longer(b, c);
    First(b + ".json", a + ".json");
    First(c + ".json", a + ".json");
    Second(c + ".json", b + ".json");
  }

  /** The condition has to leave stubs out: a blank version that begins a numeric one makes a tie a miss. */
  lemma StubCanTurnATieIntoAMiss()
    ensures var listing := ["\t1", "  1", " "];
      && InNameOrder(listing) && !NoStub(listing) && !Overshadowed(listing) && !Newest(listing, Latest(listing))
  {
    var a, b, c := "\t1", "  1", " ";
    StubNumbers();
    StubOrder();
    GreaterIrreflexive([1]);
    LatestOfThree(a, b, c);
    var listing := [a, b, c];
    assert listing[1] == b && listing[2] == c && c == b[..1] && c <= b;
    assert OnTop(listing, b);
    assert forall high | high in listing && Numeric(high) :: !VersionGt(high, b);
    assert b in listing;
  }

  lemma First(v: string, w: string)
    requires v != "" && w != "" && v[0] > w[0]
    ensures TextGt(v, w)
  {
    assert Codes(v)[0] == v[0] as int && Codes(w)[0] == w[0] as int;
  }

  lemma Second(v: string, w: string)
    requires |v| > 1 && |w| > 1 && v[0] == w[0] && v[1] > w[1]
    ensures TextGt(v, w)
  {
    assert Codes(v)[0] == v[0] as int && Codes(w)[0] == w[0] as int;
    assert Codes(v)[1..][0] == v[1] as int && Codes(w)[1..][0] == w[1] as int;
  }

  lemma Longer(v: string, w: string)
    requires |v| > |w| == 1 && v[0] == w[0]
    ensures TextGt(v, w)
  {
    assert Codes(v)[0] == v[0] as int && Codes(w)[0] == w[0] as int;
    assert Codes(w)[1..] == [] && Codes(v)[1..] != [];
  }
}
