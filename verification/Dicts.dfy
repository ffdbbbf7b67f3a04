/**
  A dictionary filled by a loop that keeps one element for each key, and the sorted list of
  its values: Python's `dict` with `sorted(d.values(), key=…)`.
*/
module Dicts {
  import opened Optional
  import opened Versions

  // -------------------------------------------------------------- specification

  /** The element the loop keeps for key k: the first, until one takes its place. */
  function Chosen<T>(key: T -> string, takes: (T, T) -> bool, xs: seq<T>, k: string): Option<T> {
    if xs == [] then None
    else
      var kept, x := Chosen(key, takes, xs[..|xs| - 1], k), xs[|xs| - 1];
      if key(x) != k then kept
      else if kept.None? || takes(x, kept.value) then Some(x)
      else kept
  }

  ghost predicate Ascending<T>(key: T -> string, xs: seq<T>) {
    forall i, j | 0 <= i < j < |xs| :: TextGt(key(xs[j]), key(xs[i]))
  }

  /** The elements kept, one for each key there is, in the order of their keys. */
  ghost predicate Catalogue<T(!new)>(key: T -> string, takes: (T, T) -> bool, xs: seq<T>, r: seq<T>) {
    && Ascending(key, r)
    && (forall i | 0 <= i < |r| :: Chosen(key, takes, xs, key(r[i])) == Some(r[i]))
    && (forall i | 0 <= i < |xs| :: Lists(key, r, key(xs[i])))
  }

  ghost predicate Lists<T>(key: T -> string, r: seq<T>, k: string) {
    exists j | 0 <= j < |r| :: key(r[j]) == k
  }

  lemma {:induction false} ChosenExists<T(!new)>(key: T -> string, takes: (T, T) -> bool, xs: seq<T>, k: string)
    ensures var c := Chosen(key, takes, xs, k);
      if c.Some? then key(c.value) == k && c.value in xs else forall x | x in xs :: key(x) != k
  {
    if xs != [] {
      var init, x := xs[..|xs| - 1], xs[|xs| - 1];
      ChosenExists(key, takes, init, k);
      assert forall y :: y in xs <==> y in init || y == x;
    }
  }

  /** Two catalogues of the same elements are equal. */
  lemma CatalogueUnique<T(!new)>(key: T -> string, takes: (T, T) -> bool, xs: seq<T>, r: seq<T>, s: seq<T>)
    requires Catalogue(key, takes, xs, r) && Catalogue(key, takes, xs, s)
    ensures r == s
  {
    CatalogueWithin(key, takes, xs, r, s);
    CatalogueWithin(key, takes, xs, s, r);
    SamePrefix(key, r, s, |r|);
    SamePrefix(key, s, r, |s|);
  }

  lemma CatalogueWithin<T(!new)>(key: T -> string, takes: (T, T) -> bool, xs: seq<T>, r: seq<T>, s: seq<T>)
    requires Catalogue(key, takes, xs, r) && Catalogue(key, takes, xs, s)
    ensures forall i | 0 <= i < |r| :: r[i] in s
  {
    forall i | 0 <= i < |r| ensures r[i] in s {
      ChosenExists(key, takes, xs, key(r[i]));
      var k :| 0 <= k < |xs| && xs[k] == r[i];
      var j :| 0 <= j < |s| && key(s[j]) == key(xs[k]);
      assert Some(s[j]) == Some(r[i]);
    }
  }

  lemma {:induction false} SamePrefix<T(!new)>(key: T -> string, r: seq<T>, s: seq<T>, n: nat)
    requires Ascending(key, r) && Ascending(key, s) && n <= |r|
    requires (forall i | 0 <= i < |r| :: r[i] in s) && (forall i | 0 <= i < |s| :: s[i] in r)
    ensures n <= |s| && forall i | 0 <= i < n :: r[i] == s[i]
  {
    if n > 0 {
      SamePrefix(key, r, s, n - 1);
      var j :| 0 <= j < |s| && s[j] == r[n - 1];
      assert j < n - 1 ==> r[j] == r[n - 1] && TextGt(key(r[n - 1]), key(r[j]));
      TextOrder(key(r[n - 1]), key(r[n - 1]), key(r[n - 1]));
      var i :| 0 <= i < |r| && r[i] == s[n - 1];
      assert i < n - 1 ==> s[i] == s[n - 1] && TextGt(key(s[n - 1]), key(s[i]));
      TextOrder(key(s[n - 1]), key(r[n - 1]), key(s[n - 1]));
    }
  }

  // ------------------------------------------------------------------ the dict

  /** The keys in the order they were first put, and what they map to. */
  datatype Dict<T> = Dict(order: seq<string>, values: map<string, T>) {
    ghost predicate Ok() {
      && (forall i | 0 <= i < |order| :: order[i] in values)
      && (forall k | k in values :: k in order)
      && (forall i, j | 0 <= i < j < |order| :: order[i] != order[j])
    }

    function Put(k: string, v: T): (d: Dict<T>)
      requires Ok()
      ensures d.Ok() && d.values == values[k := v]
    {
      Dict(if k in values then order else order + [k], values[k := v])
    }

    /** `d.values()`. */
    function Values(): seq<T>
      requires Ok()
    {
      seq(|order|, i requires 0 <= i < |order| => values[order[i]])
    }
  }

  /** The dict is what the loop makes of xs. */
  ghost predicate Represents<T(!new)>(d: Dict<T>, key: T -> string, takes: (T, T) -> bool, xs: seq<T>) {
    && d.Ok()
    && forall k: string :: Chosen(key, takes, xs, k) == if k in d.values then Some(d.values[k]) else None
  }

  lemma EmptyDict<T(!new)>(key: T -> string, takes: (T, T) -> bool)
    ensures Represents(Dict([], map[]), key, takes, [])
  {
  }

  /** One turn of such a loop. */
  lemma Turn<T(!new)>(d: Dict<T>, key: T -> string, takes: (T, T) -> bool, xs: seq<T>, x: T)
    requires Represents(d, key, takes, xs)
    ensures var stays := key(x) in d.values && !takes(x, d.values[key(x)]);
      Represents(if stays then d else d.Put(key(x), x), key, takes, xs + [x])
  {
    assert (xs + [x])[..|xs|] == xs;
    forall k: string
      ensures Chosen(key, takes, xs + [x], k)
           == if key(x) != k then Chosen(key, takes, xs, k)
              else if k in d.values && !takes(x, d.values[k]) then Some(d.values[k])
              else Some(x)
    {
    }
  }

  // ---------------------------------------------------------------- the sort

  function Insert<T>(key: T -> string, sorted: seq<T>, x: T): seq<T> {
    if sorted == [] then [x]
    else if TextGt(key(sorted[0]), key(x)) then [x] + sorted
    else [sorted[0]] + Insert(key, sorted[1..], x)
  }

  /** `sorted(xs, key=key)`. */
  function SortBy<T>(key: T -> string, xs: seq<T>): seq<T> {
    if xs == [] then [] else Insert(key, SortBy(key, xs[..|xs| - 1]), xs[|xs| - 1])
  }

  lemma {:induction false} InsertMembers<T(!new)>(key: T -> string, xs: seq<T>, x: T)
    ensures forall y :: y in Insert(key, xs, x) <==> y in xs || y == x
  {
    if xs != [] && !TextGt(key(xs[0]), key(x)) {
      InsertMembers(key, xs[1..], x);
      assert xs == [xs[0]] + xs[1..];
    }
  }

  lemma {:induction false} InsertAscending<T(!new)>(key: T -> string, xs: seq<T>, x: T)
    requires Ascending(key, xs) && forall y | y in xs :: key(y) != key(x)
    ensures Ascending(key, Insert(key, xs, x))
  {
    if xs != [] {
      TextOrder(key(x), key(xs[0]), key(x));
      if TextGt(key(xs[0]), key(x)) {
        forall j | 0 < j < |xs| ensures TextGt(key(xs[j]), key(x)) { TextOrder(key(xs[j]), key(xs[0]), key(x)); }
      } else {
        var rest := Insert(key, xs[1..], x);
        InsertAscending(key, xs[1..], x);
        InsertMembers(key, xs[1..], x);
        forall j | 0 <= j < |rest| ensures TextGt(key(rest[j]), key(xs[0])) {
          assert rest[j] in rest;
          if rest[j] != x {
            var m :| 0 <= m < |xs[1..]| && xs[1..][m] == rest[j];
            assert xs[m + 1] == rest[j];
          }
        }
      }
    }
  }

  lemma {:induction false} SortAscending<T(!new)>(key: T -> string, xs: seq<T>)
    requires forall i, j | 0 <= i < j < |xs| :: key(xs[i]) != key(xs[j])
    ensures Ascending(key, SortBy(key, xs)) && forall y :: y in SortBy(key, xs) <==> y in xs
  {
    if xs != [] {
      var init, x := xs[..|xs| - 1], xs[|xs| - 1];
      SortAscending(key, init);
      InsertAscending(key, SortBy(key, init), x);
      InsertMembers(key, SortBy(key, init), x);
      assert forall y :: y in xs <==> y in init || y == x;
    }
  }

  /** Sorting the values of the dict gives the catalogue. */
  lemma SortedValuesAreTheCatalogue<T(!new)>(d: Dict<T>, key: T -> string, takes: (T, T) -> bool, xs: seq<T>)
    requires Represents(d, key, takes, xs)
    ensures Catalogue(key, takes, xs, SortBy(key, d.Values()))
  {
    var values := d.Values();
    forall i | 0 <= i < |values|
      ensures key(values[i]) == d.order[i] && Chosen(key, takes, xs, key(values[i])) == Some(values[i])
    {
      assert Chosen(key, takes, xs, d.order[i]) == Some(values[i]);
      ChosenExists(key, takes, xs, d.order[i]);
    }
    SortAscending(key, values);
    var r := SortBy(key, values);
    forall i | 0 <= i < |r| ensures Chosen(key, takes, xs, key(r[i])) == Some(r[i]) {
      assert r[i] in r;
      var m :| 0 <= m < |values| && values[m] == r[i];
    }
    forall i | 0 <= i < |xs| ensures Lists(key, r, key(xs[i])) {
      ChosenExists(key, takes, xs, key(xs[i]));
      assert xs[i] in xs;
      var m :| 0 <= m < |d.order| && d.order[m] == key(xs[i]);
      assert values[m] in r;
      var j :| 0 <= j < |r| && r[j] == values[m];
    }
  }
}
