/**
  Splitting a text at whitespace and joining words with a space: the two undo each other,
  and splitting distributes over texts that whitespace separates.
*/
module Words {
  /** `str.isspace` of one character. */
  predicate IsSpace(c: char) {
    var n := c as int;
    || 0x09 <= n <= 0x0D || 0x1C <= n <= 0x20 || n == 0x85 || n == 0xA0 || n == 0x1680
    || 0x2000 <= n <= 0x200A || n == 0x2028 || n == 0x2029 || n == 0x202F || n == 0x205F || n == 0x3000
  }

  /** Of the ASCII characters these ten are whitespace, and no printed one is. */
  lemma AsciiSpaces(c: char)
    requires c < 128 as char
    ensures IsSpace(c) <==> c == ' ' || c == '\t' || c == '\n' || c == '\r'
                            || c as int in {0x0B, 0x0C, 0x1C, 0x1D, 0x1E, 0x1F}
    ensures '!' <= c <= '~' ==> !IsSpace(c)
  {
  }

  predicate IsWord(w: string) {
    w != "" && forall i | 0 <= i < |w| :: !IsSpace(w[i])
  }

  ghost predicate AllWords(ws: seq<string>) {
    forall i | 0 <= i < |ws| :: IsWord(ws[i])
  }

  /** The length of the longest space-free prefix. */
  function WordEnd(s: string): (n: nat)
    ensures n <= |s|
    ensures forall i | 0 <= i < n :: !IsSpace(s[i])
    ensures n < |s| ==> IsSpace(s[n])
  {
    if s == "" || IsSpace(s[0]) then 0 else 1 + WordEnd(s[1..])
  }

  function TrimLeft(s: string): string {
    if s != "" && IsSpace(s[0]) then TrimLeft(s[1..]) else s
  }

  function TrimRight(s: string): string {
    if s != "" && IsSpace(s[|s| - 1]) then TrimRight(s[..|s| - 1]) else s
  }

  /** `str.strip()`. */
  function Strip(s: string): string {
    TrimRight(TrimLeft(s))
  }

  /** `str.split()`. */
  function Split(s: string): (ws: seq<string>)
    ensures forall i | 0 <= i < |ws| :: IsWord(ws[i])
    decreases |s|
  {
    if s == "" then []
    else if IsSpace(s[0]) then Split(s[1..])
    else
      var n := WordEnd(s);
      [s[..n]] + Split(s[n..])
  }

  /** `" ".join(ws)`. */
  function Join(ws: seq<string>): string {
    if ws == [] then "" else if |ws| == 1 then ws[0] else ws[0] + " " + Join(ws[1..])
  }

  /** Words are joined by single spaces. */
  lemma {:induction false} JoinSpaces(ws: seq<string>, w: string)
    ensures Join([]) == "" && Join([w]) == w
    ensures ws != [] ==> Join(ws + [w]) == Join(ws) + " " + w
  {
    if |ws| > 1 {
      JoinSpaces(ws[1..], w);
      assert (ws + [w])[1..] == ws[1..] + [w];
      assert ws[0] + " " + (Join(ws[1..]) + " " + w) == ws[0] + " " + Join(ws[1..]) + " " + w;
    } else if |ws| == 1 {
      assert (ws + [w])[1..] == [w];
    }
  }

  lemma {:induction false} WordEndBefore(w: string, rest: string)
    requires forall i | 0 <= i < |w| :: !IsSpace(w[i])
    requires rest == "" || IsSpace(rest[0])
    ensures WordEnd(w + rest) == |w|
  {
    if w == "" {
      assert w + rest == rest;
    } else {
      assert (w + rest)[1..] == w[1..] + rest;
      WordEndBefore(w[1..], rest);
    }
  }

  /** A word followed by nothing or by whitespace is split off first. */
  lemma SplitWord(w: string, rest: string)
    requires IsWord(w) && (rest == "" || IsSpace(rest[0]))
    ensures Split(w + rest) == [w] + Split(rest)
  {
    WordEndBefore(w, rest);
    assert (w + rest)[0] == w[0];
    assert (w + rest)[..|w|] == w && (w + rest)[|w|..] == rest;
  }

  /** Splitting what joining made gives the words back. */
  lemma {:induction false} SplitOfJoin(ws: seq<string>)
    requires AllWords(ws)
    ensures Split(Join(ws)) == ws
  {
    if |ws| == 1 {
      SplitWord(ws[0], "");
      assert ws[0] + "" == ws[0];
    } else if ws != [] {
      var rest := " " + Join(ws[1..]);
      SplitWord(ws[0], rest);
      SplitOfJoin(ws[1..]);
      assert rest[1..] == Join(ws[1..]);
      assert Join(ws) == ws[0] + rest;
    }
  }

  /** The first word of a text is the first word of the text with more after a whitespace. */
  lemma FirstWord(a: string, c: char, b: string)
    requires a != "" && !IsSpace(a[0]) && IsSpace(c)
    ensures var n := WordEnd(a);
      Split(a + [c] + b) == [a[..n]] + Split(a[n..] + [c] + b) && Split(a) == [a[..n]] + Split(a[n..])
  {
    var n := WordEnd(a);
    var tail := a[n..] + [c] + b;
    assert a + [c] + b == a[..n] + tail;
    assert tail[0] == if n < |a| then a[n] else c;
    SplitWord(a[..n], tail);
  }

  /** A whitespace character separates the words on its two sides. */
  lemma {:induction false} SplitAtSpace(a: string, c: char, b: string)
    requires IsSpace(c)
    ensures Split(a + [c] + b) == Split(a) + Split(b)
    decreases |a|
  {
    var s := a + [c] + b;
    if a == "" {
      assert s[1..] == b;
    } else if IsSpace(a[0]) {
      assert s[1..] == a[1..] + [c] + b;
      SplitAtSpace(a[1..], c, b);
    } else {
      FirstWord(a, c, b);
      SplitAtSpace(a[WordEnd(a)..], c, b);
    }
  }

  /** Whitespace in front of a text adds no word. */
  lemma SplitSkips(c: char, b: string)
    requires IsSpace(c)
    ensures Split([c] + b) == Split(b)
  {
    assert ([c] + b)[1..] == b;
  }

  lemma AllWordsTake(ws: seq<string>, n: nat)
    requires AllWords(ws) && n <= |ws|
    ensures AllWords(ws[..n])
  {
  }

  ghost predicate Blank(s: string) {
    forall i | 0 <= i < |s| :: IsSpace(s[i])
  }

  lemma {:induction false} TrimLeftCuts(s: string) returns (front: string)
    ensures s == front + TrimLeft(s) && Blank(front)
    ensures TrimLeft(s) != "" ==> !IsSpace(TrimLeft(s)[0])
  {
    front := "";
    if s != "" && IsSpace(s[0]) {
      var more := TrimLeftCuts(s[1..]);
      front := [s[0]] + more;
    }
  }

  lemma {:induction false} TrimRightCuts(s: string) returns (back: string)
    ensures s == TrimRight(s) + back && Blank(back)
    ensures TrimRight(s) != "" ==> TrimRight(s)[0] == s[0] && !IsSpace(TrimRight(s)[|TrimRight(s)| - 1])
    decreases |s|
  {
    back := "";
    if s != "" && IsSpace(s[|s| - 1]) {
      var init, last := s[..|s| - 1], s[|s| - 1];
      var more := TrimRightCuts(init);
      var core := TrimRight(init);
      back := more + [last];
      assert TrimRight(s) == core && s == init + [last] == core + more + [last];
      assert core + more + [last] == core + back;
    } else {
      assert TrimRight(s) == s && s + "" == s;
    }
  }

  /** What is stripped off is whitespace on both sides, and no more of it is left there. */
  lemma StripCuts(s: string) returns (front: string, back: string)
    ensures s == front + Strip(s) + back && Blank(front) && Blank(back)
    ensures Strip(s) != "" ==> !IsSpace(Strip(s)[0]) && !IsSpace(Strip(s)[|Strip(s)| - 1])
  {
    front := TrimLeftCuts(s);
    back := TrimRightCuts(TrimLeft(s));
    assert front + (Strip(s) + back) == front + Strip(s) + back;
  }

  /** Stripping changes no word. */
  lemma {:induction false} SplitStrip(s: string)
    ensures Split(Strip(s)) == Split(s)
    decreases |s|
  {
    if s != "" && IsSpace(s[0]) {
      SplitStrip(s[1..]);
    } else {
      SplitTrimRight(s);
    }
  }

  lemma {:induction false} SplitTrimRight(s: string)
    ensures Split(TrimRight(s)) == Split(s)
    decreases |s|
  {
    var n := |s| - 1;
    if s != "" && IsSpace(s[n]) {
      SplitTrimRight(s[..n]);
      assert s == s[..n] + [s[n]] + "";
      SplitAtSpace(s[..n], s[n], "");
    }
  }

  /** A text has no words exactly when nothing is left of it after stripping. */
  lemma NoWordsIff(s: string)
    ensures Split(s) == [] <==> Strip(s) == ""
  {
    SplitStrip(s);
    var front, back := StripCuts(s);
  }
}
