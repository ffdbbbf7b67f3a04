/**
  What a version text says: its parts, the numbers they spell, and which of two number lists is
  the greater.
*/
module VersionText {
  import opened Optional
  import opened Words
  import opened Versions
  import opened NamedVersions
  import Ingestion

  // --------------------------------------------------------------------- parts

  /** `".".join(parts)`. */
  function Dotted(parts: seq<string>): string
    requires parts != []
  {
    if |parts| == 1 then parts[0] else parts[0] + "." + Dotted(parts[1..])
  }

  ghost predicate DotFree(parts: seq<string>) {
    forall i | 0 <= i < |parts| :: '.' !in parts[i]
  }

  /** Splitting at dots and joining with dots undo each other. */
  lemma {:induction false} SplitUndone(s: string)
    ensures DotFree(SplitDots(s)) && Dotted(SplitDots(s)) == s
  {
    if s != "" {
      SplitUndone(s[1..]);
      var rest := SplitDots(s[1..]);
      assert [s[0]] + s[1..] == s;
      if s[0] == '.' {
        assert ([""] + rest)[1..] == rest;
        assert "" + "." + s[1..] == s;
      } else {
        var parts := [[s[0]] + rest[0]] + rest[1..];
        assert SplitDots(s) == parts;
        assert |rest| > 1 ==> parts[1..] == rest[1..]
                              && [s[0]] + (rest[0] + "." + Dotted(rest[1..])) == parts[0] + "." + Dotted(parts[1..]);
      }
    }
  }

  lemma {:induction false} JoinUndone(parts: seq<string>)
    requires parts != [] && DotFree(parts)
    ensures SplitDots(Dotted(parts)) == parts
  {
    NoDots(parts[0]);
    if |parts| > 1 {
      JoinUndone(parts[1..]);
      var tail := "." + Dotted(parts[1..]);
      assert tail[1..] == Dotted(parts[1..]);
      assert SplitDots(tail) == [""] + parts[1..];
      SplitExtended(parts[0], tail);
      assert Dotted(parts) == parts[0] + tail && parts[0] + "" == parts[0];
      assert Glue([parts[0]], [""] + parts[1..]) == [parts[0]] + parts[1..];
    } else {
      assert parts == [parts[0]];
    }
  }

  // ------------------------------------------------------------------- numbers

  /** A decimal text is read as the number it was written for. */
  lemma {:induction false} DecimalReads(n: nat)
    ensures ParseDigits(Ingestion.Decimal(n)) == Some(n)
  {
    var s := Ingestion.Decimal(n);
    var last := s[|s| - 1];
    DigitReads(n % 10);
    if n >= 10 {
      DecimalReads(n / 10);
      assert s[..|s| - 1] == Ingestion.Decimal(n / 10) && last == Ingestion.Digit(n % 10);
      assert s[|s| - 2] == Ingestion.Decimal(n / 10)[|s| - 2];
    } else {
      assert s == [last] && last == Ingestion.Digit(n);
    }
  }

  lemma DigitReads(d: nat)
    requires d < 10
    ensures DigitValue(Ingestion.Digit(d)) == Some(d)
  {
  }

  /** A further digit counts, and one underscore before it is skipped. */
  lemma UnderscoreSkipped(s: string, d: nat)
    requires d < 10 && ParseDigits(s).Some?
    ensures ParseDigits(s + "_" + [Ingestion.Digit(d)]) == Some(10 * ParseDigits(s).value + d)
  {
    DigitReads(d);
    var rest := s + "_";
    var t := rest + [Ingestion.Digit(d)];
    assert t[..|t| - 1] == rest && t[|t| - 1] == Ingestion.Digit(d);
    assert rest[|rest| - 1] == '_' && rest[..|rest| - 1] == s;
  }

  /** No number begins or ends in an underscore. */
  lemma UnderscoreOutside(s: string)
    requires ParseDigits(s).Some?
    ensures ParseDigits(s + "_") == None && ParseDigits("_" + s) == None
  {
    var t := s + "_";
    assert t[|t| - 1] == '_';
    LastIsDigit(s);
    NoLeadingUnderscore(s);
  }

  lemma LastIsDigit(s: string)
    requires ParseDigits(s).Some?
    ensures s[|s| - 1] != '_'
  {
  }

  lemma {:induction false} NoLeadingUnderscore(s: string)
    requires s != "" && s[|s| - 1] != '_'
    ensures ParseDigits("_" + s) == None
    decreases |s|
  {
    var t := "_" + s;
    var rest := t[..|t| - 1];
    assert rest == "_" + s[..|s| - 1];
    if |s| > 1 && rest[|rest| - 1] != '_' {
      NoLeadingUnderscore(s[..|s| - 1]);
    } else if |s| > 1 {
      var high := rest[..|rest| - 1];
      assert high == "_" + s[..|s| - 2];
      if |s| > 2 && s[|s| - 3] != '_' {
        NoLeadingUnderscore(s[..|s| - 2]);
      } else {
        assert high[|high| - 1] == '_';
      }
    } else {
      assert rest == "_" && rest[..0] == "";
    }
  }

  /** A text that neither begins nor ends in whitespace is left as it is. */
  lemma StripLeaves(s: string)
    requires s == "" || (!IsSpace(s[0]) && !IsSpace(s[|s| - 1]))
    ensures Strip(s) == s
  {
  }

  /** Python's `str(n)`. */
  function Printed(n: int): string {
    if n < 0 then "-" + Ingestion.Decimal(-n) else Ingestion.Decimal(n)
  }

  lemma PlainReads(s: string, digits: string)
    requires Strip(s) == digits && digits != "" && digits[0] != '-' && digits[0] != '+'
    ensures ParseInt(s) == if ParseDigits(digits).None? then None else Some(ParseDigits(digits).value)
  {
  }

  lemma SignReads(s: string, sign: char, digits: string)
    requires Strip(s) == [sign] + digits && (sign == '-' || sign == '+') && ParseDigits(digits).Some?
    ensures ParseInt(s) == Some(if sign == '-' then -ParseDigits(digits).value else ParseDigits(digits).value)
  {
    assert ([sign] + digits)[1..] == digits;
  }

  /** What was printed is read back, with or without whitespace around it, and a plus sign changes nothing. */
  lemma IntReads(n: int, s: string)
    requires Strip(s) == Printed(n) || (n >= 0 && Strip(s) == "+" + Ingestion.Decimal(n))
    ensures ParseInt(s) == Some(n)
  {
    var digits := Ingestion.Decimal(if n < 0 then -n else n);
    DecimalReads(if n < 0 then -n else n);
    if Strip(s) == digits {
      assert '0' <= digits[0] <= '9';
      PlainReads(s, digits);
    } else {
      SignReads(s, Strip(s)[0], digits);
    }
  }

  lemma PrintedIsPlain(n: int)
    ensures Strip(Printed(n)) == Printed(n) && '.' !in Printed(n)
  {
    var digits := Ingestion.Decimal(if n < 0 then -n else n);
    assert '0' <= digits[|digits| - 1] <= '9' && '0' <= digits[0] <= '9';
    StripLeaves(Printed(n));
  }

  function PrintedAll(ns: seq<int>): seq<string> {
    seq(|ns|, i requires 0 <= i < |ns| => Printed(ns[i]))
  }

  lemma {:induction false} PartsRead(ns: seq<int>)
    ensures ParseAll(PrintedAll(ns)) == Some(ns)
  {
    if ns != [] {
      var parts := PrintedAll(ns);
      PrintedIsPlain(ns[0]);
      IntReads(ns[0], parts[0]);
      PartsRead(ns[1..]);
      assert parts[1..] == PrintedAll(ns[1..]);
      assert [ns[0]] + ns[1..] == ns;
    }
  }

  /** The version written with these numbers has these numbers. */
  lemma NumbersOfDotted(ns: seq<int>)
    requires ns != []
    ensures Numbers(Dotted(PrintedAll(ns))) == Some(ns)
  {
    forall i | 0 <= i < |ns| ensures '.' !in PrintedAll(ns)[i] { PrintedIsPlain(ns[i]); }
    JoinUndone(PrintedAll(ns));
    PartsRead(ns);
  }

  // ---------------------------------------------------------------------- order

  /** Equal up to place i, and there the first ends the comparison in its favour. */
  ghost predicate WinsAt(a: seq<int>, b: seq<int>, i: nat) {
    && i < |a| && i <= |b| && a[..i] == b[..i]
    && (i == |b| || a[i] > b[i])
  }

  /** The greater list is the one that wins at the first difference, a missing number losing. */
  lemma {:induction false} GreaterIffWins(a: seq<int>, b: seq<int>)
    ensures Greater(a, b) <==> exists i: nat :: WinsAt(a, b, i)
  {
    if a != [] && (b == [] || a[0] > b[0]) {
      assert WinsAt(a, b, 0);
    } else if a != [] && a[0] == b[0] {
      GreaterIffWins(a[1..], b[1..]);
      if i: nat :| WinsAt(a[1..], b[1..], i) {
        assert a[..i + 1] == [a[0]] + a[1..][..i] && b[..i + 1] == [b[0]] + b[1..][..i];
        assert WinsAt(a, b, i + 1);
      }
      if i: nat :| WinsAt(a, b, i) {
        assert i > 0;
        assert a[1..][..i - 1] == a[..i][1..] && b[1..][..i - 1] == b[..i][1..];
        assert WinsAt(a[1..], b[1..], i - 1);
      }
    } else if a != [] {
      assert forall i: nat | 0 < i <= |a| && i <= |b| :: a[..i][0] == a[0] && b[..i][0] == b[0];
    }
  }

  /** Versions written with numbers are compared by them: 1.10 is newer than 1.9. */
  lemma NewerIffWins(a: seq<int>, b: seq<int>)
    requires a != [] && b != []
    ensures VersionGt(Dotted(PrintedAll(a)), Dotted(PrintedAll(b))) <==> exists i: nat :: WinsAt(a, b, i)
  {
    NumbersOfDotted(a);
    NumbersOfDotted(b);
    GreaterIffWins(a, b);
  }
}
