/** Lists ordered by a string key, and the one ordered list of a finite set. */
module Sorting {
  import opened Text

  ghost predicate Sorted<T>(key: T -> string, xs: seq<T>) {
    forall i, j | 0 <= i < j < |xs| :: Less(key(xs[i]), key(xs[j]))
  }

  ghost function Elements<T>(xs: seq<T>): set<T> {
    set x | x in xs
  }

  ghost predicate DistinctKeys<T(!new)>(key: T -> string, s: set<T>) {
    forall x, y | x in s && y in s && key(x) == key(y) :: x == y
  }

  lemma SortedDistinct<T>(key: T -> string, xs: seq<T>)
    requires Sorted(key, xs)
    ensures forall i, j | 0 <= i < j < |xs| :: key(xs[i]) != key(xs[j])
  {
    forall i, j | 0 <= i < j < |xs| ensures key(xs[i]) != key(xs[j]) {
      LessIrreflexive(key(xs[i]));
    }
  }

  /** Puts `x` before the first entry with a larger key. */
  function Insert<T(!new)>(key: T -> string, x: T, xs: seq<T>): (r: seq<T>)
    ensures |r| == |xs| + 1
    ensures forall y :: y in r <==> y == x || y in xs
  {
    if xs == [] then [x]
    else if Less(key(x), key(xs[0])) then [x] + xs
    else [xs[0]] + Insert(key, x, xs[1..])
  }

  lemma {:induction false} InsertSorted<T(!new)>(key: T -> string, x: T, xs: seq<T>)
    requires Sorted(key, xs) && forall y | y in xs :: key(y) != key(x)
    ensures Sorted(key, Insert(key, x, xs))
  {
    if xs == [] {
    } else {
      if Less(key(x), key(xs[0])) {
        forall i | 0 <= i < |xs| ensures Less(key(x), key(xs[i])) {
          if i > 0 { LessTransitive(key(x), key(xs[0]), key(xs[i])); }
        }
      } else {
        LessTotal(key(x), key(xs[0]));
        var rest := Insert(key, x, xs[1..]);
        InsertSorted(key, x, xs[1..]);
        forall i | 0 <= i < |rest| ensures Less(key(xs[0]), key(rest[i])) {
          assert rest[i] in rest;
        }
      }
    }
  }

  /** The ordered list of `s`. */
  ghost function Listed<T(!new)>(key: T -> string, s: set<T>): (r: seq<T>)
    requires DistinctKeys(key, s)
    ensures Sorted(key, r) && Elements(r) == s
  {
    if s == {} then [] else
      var x :| x in s;
      var rest := Listed(key, s - {x});
      InsertSorted(key, x, rest);
      var r := Insert(key, x, rest);
      assert Elements(r) == s by {
        forall y ensures y in r <==> y in s {
          assert y in rest <==> y in Elements(rest);
        }
      }
      r
  }

  /** There is only one ordered list of a set. */
  lemma {:induction false} SortedUnique<T(!new)>(key: T -> string, a: seq<T>, b: seq<T>)
    requires Sorted(key, a) && Sorted(key, b) && Elements(a) == Elements(b)
    ensures a == b
    decreases |a|
  {
    if a == [] {
      if b != [] { HeadIsElement(b); }
    } else {
      assert a[0] in Elements(b);
      FirstIsLeast(key, a, b[0]);
      FirstIsLeast(key, b, a[0]);
      assert a[0] == b[0] by {
        if a[0] != b[0] {
          LessAsymmetric(key(a[0]), key(b[0]));
        }
      }
      TailElements(key, a);
      TailElements(key, b);
      SortedUnique(key, a[1..], b[1..]);
      assert a == [a[0]] + a[1..] && b == [b[0]] + b[1..];
    }
  }

  lemma HeadIsElement<T>(a: seq<T>)
    requires a != []
    ensures a[0] in Elements(a)
  {
  }

  lemma FirstIsLeast<T(!new)>(key: T -> string, a: seq<T>, x: T)
    requires Sorted(key, a) && a != [] && x in Elements(a)
    ensures x == a[0] || Less(key(a[0]), key(x))
  {
    var i :| 0 <= i < |a| && a[i] == x;
  }

  lemma TailElements<T(!new)>(key: T -> string, a: seq<T>)
    requires Sorted(key, a) && a != []
    ensures Elements(a[1..]) == Elements(a) - {a[0]}
  {
    forall x | x in a[1..] ensures x != a[0] {
      var i :| 0 <= i < |a| - 1 && a[1..][i] == x;
      LessIrreflexive(key(x));
      assert Less(key(a[0]), key(a[i + 1]));
    }
    forall x | x in a && x != a[0] ensures x in a[1..] {
      var i :| 0 <= i < |a| && a[i] == x;
      assert a[1..][i - 1] == x;
    }
  }

  /** Sorts a list whose keys are pairwise distinct. */
  method SortByKey<T(!new)>(key: T -> string, xs: seq<T>) returns (r: seq<T>)
    requires forall i, j | 0 <= i < j < |xs| :: key(xs[i]) != key(xs[j])
    ensures Sorted(key, r) && Elements(r) == Elements(xs)
  {
    r := [];
    for i := 0 to |xs|
      invariant Sorted(key, r)
      invariant forall y :: y in r <==> y in xs[..i]
    {
      forall y | y in r ensures key(y) != key(xs[i]) {
        var j :| 0 <= j < i && xs[j] == y;
      }
      InsertSorted(key, xs[i], r);
      r := Insert(key, xs[i], r);
    }
    assert xs[..|xs|] == xs;
  }

  // ---- Texts, repeats and all ---------------------------------------------

  predicate Ascending(xs: seq<string>) {
    forall i, j | 0 <= i < j < |xs| :: !Less(xs[j], xs[i])
  }

  function InsertText(x: string, xs: seq<string>): (r: seq<string>)
    ensures multiset(r) == multiset(xs) + multiset{x}
  {
    if xs == [] then [x]
    else if !Less(xs[0], x) then [x] + xs
    else
      assert xs == [xs[0]] + xs[1..];
      [xs[0]] + InsertText(x, xs[1..])
  }

  /** The texts in order. */
  function SortTexts(xs: seq<string>): (r: seq<string>)
    ensures multiset(r) == multiset(xs)
  {
    if xs == [] then []
    else
      assert xs == xs[..|xs| - 1] + [xs[|xs| - 1]];
      InsertText(xs[|xs| - 1], SortTexts(xs[..|xs| - 1]))
  }

  lemma {:induction false} InsertAscends(x: string, xs: seq<string>)
    requires Ascending(xs)
    ensures Ascending(InsertText(x, xs))
  {
    if xs == [] {
    } else if !Less(xs[0], x) {
      forall j | 0 <= j < |xs| ensures !Less(xs[j], x) {
        if Less(xs[j], x) { NotBelowHead(xs, j, x); }
      }
    } else {
      InsertAscends(x, xs[1..]);
      var rest := InsertText(x, xs[1..]);
      LessAsymmetric(xs[0], x);
      forall j | 0 <= j < |rest| ensures !Less(rest[j], xs[0]) {
        assert rest[j] in multiset(rest);
        if rest[j] != x {
          assert rest[j] in multiset(xs[1..]);
          var i :| 0 <= i < |xs| - 1 && xs[1..][i] == rest[j];
          assert xs[i + 1] == rest[j];
        }
      }
    }
  }

  lemma NotBelowHead(xs: seq<string>, j: nat, x: string)
    requires Ascending(xs) && j < |xs| && Less(xs[j], x)
    ensures Less(xs[0], x)
  {
    if j > 0 {
      LessTotal(xs[0], xs[j]);
      if xs[0] != xs[j] { LessTransitive(xs[0], xs[j], x); }
    }
  }

  lemma {:induction false} SortTextsAscends(xs: seq<string>)
    ensures Ascending(SortTexts(xs))
  {
    if xs == [] {
    } else {
      SortTextsAscends(xs[..|xs| - 1]);
      InsertAscends(xs[|xs| - 1], SortTexts(xs[..|xs| - 1]));
    }
  }
}
