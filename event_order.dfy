/**
 * Which groups of the data file are events, and the order they are processed
 * in: the names that start with "event_", sorted (stably) by the integer
 * between the first and the second underscore.
 */
module EventOrder {
  import opened Wrappers
  import opened Graph
  import opened Text

  const Prefix: string := "event_"

  /** `[name for name in names if name.startswith('event_')]`. */
  function EventNames(names: seq<string>): (r: seq<string>)
    ensures |r| <= |names|
    ensures forall n :: n in r <==> n in names && StartsWith(n, Prefix)
    ensures Distinct(names) ==> Distinct(r)
    decreases |names|
  {
    if |names| == 0 then []
    else
      var rest := EventNames(names[1..]);
      assert Distinct(names) ==> Distinct(names[1..]) && names[0] !in names[1..] by {
        if Distinct(names) {
          forall i, j | 0 <= i < j < |names[1..]| ensures names[1..][i] != names[1..][j] {
            assert names[i + 1] != names[j + 1];
          }
          forall t | 0 <= t < |names[1..]| ensures names[1..][t] != names[0] {
            assert names[t + 1] != names[0];
          }
        }
      }
      (if StartsWith(names[0], Prefix) then [names[0]] else []) + rest
  }

  /** s up to its first c. */
  function UpTo(s: string, c: char): (r: string)
    ensures |r| <= |s| && r == s[..|r|] && c !in r
    ensures |r| < |s| ==> s[|r|] == c
    decreases |s|
  {
    if |s| == 0 || s[0] == c then "" else [s[0]] + UpTo(s[1..], c)
  }

  /** `name.split('_')[1]` for a name that starts with "event_". */
  function SecondField(name: string): string
    requires StartsWith(name, Prefix)
  {
    UpTo(name[|Prefix|..], '_')
  }

  /** `int(name.split('_')[1])`; int() ignores surrounding whitespace; None where it raises. */
  function EventKey(name: string): (r: Option<int>)
    requires StartsWith(name, Prefix)
    ensures r.Some? <==> (AllDigits(Strip(SecondField(name))) ||
      (|Strip(SecondField(name))| > 0 && Strip(SecondField(name))[0] in "+-" && AllDigits(Strip(SecondField(name))[1..])))
  {
    ParseInt(Strip(SecondField(name)))
  }

  /** The sort key of "event_" + str(i) is i. */
  lemma {:induction false} KeyOfEventName(i: int)
    ensures StartsWith(Prefix + IntToString(i), Prefix)
    ensures EventKey(Prefix + IntToString(i)) == Some(i)
  {
    var digits := IntToString(i);
    var name := Prefix + digits;
    assert name[..|Prefix|] == Prefix;
    assert name[|Prefix|..] == digits;
    IntToStringPlain(i);
    NoStopUpTo(digits, '_');
    StripLeftNoSpace(digits);
    assert StripRight(digits) == digits;
    ParseIntOfIntToString(i);
  }

  lemma {:induction false} NoStopUpTo(s: string, c: char)
    requires c !in s
    ensures UpTo(s, c) == s
    decreases |s|
  {
    if |s| > 0 {
      assert c !in s[1..];
      NoStopUpTo(s[1..], c);
    }
  }

  /** Every name is an event name with a valid sort key. */
  predicate Keyed(names: seq<string>) {
    forall n | n in names :: StartsWith(n, Prefix) && EventKey(n).Some?
  }

  /** The first event name whose sort key raises, in list order. */
  function FirstUnkeyed(names: seq<string>): (r: Option<string>)
    requires forall n | n in names :: StartsWith(n, Prefix)
    ensures r.None? <==> Keyed(names)
    ensures r.Some? ==> r.value in names && EventKey(r.value).None?
    decreases |names|
  {
    if |names| == 0 then None
    else if EventKey(names[0]).None? then Some(names[0])
    else
      var rest := FirstUnkeyed(names[1..]);
      assert forall n :: n in names <==> n == names[0] || n in names[1..];
      rest
  }

  /** The sort key of a name, 0 where it has none. */
  function KeyOf(name: string): int {
    if StartsWith(name, Prefix) && EventKey(name).Some? then EventKey(name).value else 0
  }

  predicate SortedBy<T>(xs: seq<T>, key: T -> int) {
    forall i, j :: 0 <= i < j < |xs| ==> key(xs[i]) <= key(xs[j])
  }

  /** A sorted list stays sorted behind a head whose key is not greater than any of its keys. */
  lemma ConsSortedBy<T>(h: T, xs: seq<T>, key: T -> int)
    requires SortedBy(xs, key) && forall y | y in xs :: key(h) <= key(y)
    ensures SortedBy([h] + xs, key)
  {
    var r := [h] + xs;
    forall i, j | 0 <= i < j < |r| ensures key(r[i]) <= key(r[j]) {
      assert r[j] == xs[j - 1];
      if i > 0 { assert r[i] == xs[i - 1]; }
    }
  }

  /** The head of a sorted list bounds the keys of its tail with x added. */
  lemma HeadBound<T>(xs: seq<T>, x: T, rest: seq<T>, key: T -> int)
    requires SortedBy(xs, key) && |xs| > 0 && key(xs[0]) <= key(x)
    requires multiset(rest) == multiset(xs[1..]) + multiset{x}
    ensures forall y | y in rest :: key(xs[0]) <= key(y)
  {
    forall y | y in rest ensures key(xs[0]) <= key(y) {
      assert y in multiset(rest);
      if y != x {
        assert y in multiset(xs[1..]);
        var t :| 0 <= t < |xs[1..]| && xs[1..][t] == y;
        assert xs[t + 1] == y;
      }
    }
  }

  lemma SortedByTail<T>(xs: seq<T>, key: T -> int)
    requires SortedBy(xs, key) && |xs| > 0
    ensures SortedBy(xs[1..], key)
  {
    var tail := xs[1..];
    forall i, j | 0 <= i < j < |tail| ensures key(tail[i]) <= key(tail[j]) {
      assert tail[i] == xs[i + 1] && tail[j] == xs[j + 1];
    }
  }

  /** Insert x after every entry whose key is not greater. */
  function InsertBy<T>(xs: seq<T>, x: T, key: T -> int): (r: seq<T>)
    requires SortedBy(xs, key)
    ensures SortedBy(r, key) && |r| == |xs| + 1
    ensures multiset(r) == multiset(xs) + multiset{x}
    decreases |xs|
  {
    if |xs| == 0 then [x]
    else if key(x) < key(xs[0]) then
      ConsSortedBy(x, xs, key);
      [x] + xs
    else
      SortedByTail(xs, key);
      var rest := InsertBy(xs[1..], x, key);
      HeadBound(xs, x, rest, key);
      ConsSortedBy(xs[0], rest, key);
      assert xs == [xs[0]] + xs[1..];
      [xs[0]] + rest
  }

  /** A stable insertion sort by key. */
  function SortBy<T>(xs: seq<T>, key: T -> int): (r: seq<T>)
    ensures SortedBy(r, key) && |r| == |xs|
    ensures multiset(r) == multiset(xs)
    decreases |xs|
  {
    if |xs| == 0 then []
    else
      assert xs == xs[..|xs| - 1] + [xs[|xs| - 1]];
      InsertBy(SortBy(xs[..|xs| - 1], key), xs[|xs| - 1], key)
  }

  /**
   * `names.sort(key=lambda x: int(x.split('_')[1]))` on names whose keys all
   * exist: an insertion sort that keeps names with equal keys in their
   * original order, as Python's stable sort does.
   */
  function SortByKey(names: seq<string>): (r: seq<string>)
    ensures SortedBy(r, KeyOf) && |r| == |names|
    ensures multiset(r) == multiset(names)
  {
    SortBy(names, KeyOf)
  }

  /** The sorted list holds the same names, and no name twice when the file has none twice. */
  lemma SortedNames(names: seq<string>)
    requires Keyed(names)
    ensures Keyed(SortByKey(names))
    ensures forall i, j :: 0 <= i < j < |names| ==> EventKey(SortByKey(names)[i]).value <= EventKey(SortByKey(names)[j]).value
    ensures forall n :: n in SortByKey(names) <==> n in names
    ensures Distinct(names) ==> Distinct(SortByKey(names))
  {
    var r := SortByKey(names);
    forall n ensures n in r <==> n in names {
      assert n in r <==> n in multiset(r);
      assert n in names <==> n in multiset(names);
    }
    if Distinct(names) {
      PermutationDistinct(names, r);
    }
  }
}
