/**
  String helpers the page-URL builder relies on: the order in which Go sorts
  strings, an insertion sort, joining and splitting on a separator character,
  and ASCII lower-casing.
*/
module Text {

  /**
    Strict lexicographic order on code points. Comparing the UTF-8 encodings
    byte by byte, as Go's string comparison does, gives the same order.
  */
  predicate Less(a: string, b: string)
  {
    if a == [] then b != []
    else if b == [] then false
    else if a[0] == b[0] then Less(a[1..], b[1..])
    else a[0] < b[0]
  }

  lemma {:induction false} LessIrreflexive(a: string)
    ensures !Less(a, a)
  {
    if a != [] {
      LessIrreflexive(a[1..]);
    }
  }

  lemma {:induction false} LessTransitive(a: string, b: string, c: string)
    requires Less(a, b) && Less(b, c)
    ensures Less(a, c)
  {
    if a != [] && b != [] && c != [] && a[0] == b[0] && b[0] == c[0] {
      LessTransitive(a[1..], b[1..], c[1..]);
    }
  }

  lemma {:induction false} LessTotal(a: string, b: string)
    requires a != b
    ensures Less(a, b) || Less(b, a)
  {
    if a != [] && b != [] && a[0] == b[0] {
      assert a == [a[0]] + a[1..] && b == [b[0]] + b[1..];
      LessTotal(a[1..], b[1..]);
    }
  }

  lemma LessAsymmetric(a: string, b: string)
    requires Less(a, b)
    ensures !Less(b, a)
  {
    if Less(b, a) {
      LessTransitive(a, b, a);
      LessIrreflexive(a);
    }
  }

  /** Every earlier element is strictly below every later one: sorted, without repeats. */
  predicate StrictlySorted(s: seq<string>)
  {
    forall i, j :: 0 <= i < j < |s| ==> Less(s[i], s[j])
  }

  lemma StrictlySortedDistinct(s: seq<string>, i: int, j: int)
    requires StrictlySorted(s) && 0 <= i < |s| && 0 <= j < |s| && i != j
    ensures s[i] != s[j]
  {
    if i < j { LessIrreflexive(s[i]); } else { LessIrreflexive(s[j]); }
  }

  /** Inserts `x` at its place in a strictly sorted sequence (nothing changes if it is already there). */
  function Insert(x: string, s: seq<string>): (r: seq<string>)
    requires StrictlySorted(s)
    ensures StrictlySorted(r)
    ensures forall y :: y in r <==> y == x || y in s
  {
    if s == [] then [x]
    else if x == s[0] then s
    else if Less(x, s[0]) then
      assert forall j :: 0 < j < |s| ==> Less(x, s[j]) by {
        forall j | 0 < j < |s| ensures Less(x, s[j]) { LessTransitive(x, s[0], s[j]); }
      }
      [x] + s
    else
      LessTotal(x, s[0]);
      var rest := Insert(x, s[1..]);
      assert forall y :: y in rest ==> Less(s[0], y);
      [s[0]] + rest
  }

  /**
    Sorts a sequence of strings, as Go's `slices.Sort` does for the keys of a
    map. Duplicates are removed, so the result is a permutation of the input
    only when the input is free of repeats, as map keys are.
  */
  function SortStrings(xs: seq<string>): (r: seq<string>)
    ensures StrictlySorted(r)
    ensures forall y :: y in r <==> y in xs
  {
    if xs == [] then [] else Insert(xs[0], SortStrings(xs[1..]))
  }

  /** The elements of a finite set of strings in ascending order. */
  ghost function SortedKeys(keys: set<string>): (r: seq<string>)
    ensures StrictlySorted(r)
    ensures forall y :: y in r <==> y in keys
  {
    if keys == {} then [] else
      var x :| x in keys;
      Insert(x, SortedKeys(keys - {x}))
  }

  /** A set has exactly one strictly sorted enumeration. */
  lemma {:induction false} SortedUnique(a: seq<string>, b: seq<string>)
    requires StrictlySorted(a) && StrictlySorted(b)
    requires forall y :: y in a <==> y in b
    ensures a == b
  {
    assert a != [] ==> a[0] in b;
    assert b != [] ==> b[0] in a;
    if a != [] && b != [] {
      assert a[0] in b && b[0] in a;
      if a[0] != b[0] {
        var i :| 0 <= i < |a| && a[i] == b[0];
        var j :| 0 <= j < |b| && b[j] == a[0];
        assert Less(a[0], b[0]) by { StrictlySortedDistinct(a, 0, i); }
        assert Less(b[0], a[0]) by { StrictlySortedDistinct(b, 0, j); }
        LessAsymmetric(a[0], b[0]);
      }
      forall y ensures y in a[1..] <==> y in b[1..] {
        if y in a[1..] {
          var i :| 1 <= i < |a| && a[i] == y;
          StrictlySortedDistinct(a, 0, i);
          assert y in a && y in b;
          var j :| 0 <= j < |b| && b[j] == y;
          assert b[1..][j - 1] == y;
        }
        if y in b[1..] {
          var j :| 1 <= j < |b| && b[j] == y;
          StrictlySortedDistinct(b, 0, j);
          assert y in b && y in a;
          var i :| 0 <= i < |a| && a[i] == y;
          assert a[1..][i - 1] == y;
        }
      }
      SortedUnique(a[1..], b[1..]);
      assert a == [a[0]] + a[1..] && b == [b[0]] + b[1..];
    }
  }

  /** The pieces in order with `sep` between neighbours, as Go's `strings.Join`. */
  function Join(xs: seq<string>, sep: char): string
  {
    if |xs| == 0 then ""
    else if |xs| == 1 then xs[0]
    else xs[0] + [sep] + Join(xs[1..], sep)
  }

  lemma {:induction false} JoinSnoc(xs: seq<string>, x: string, sep: char)
    requires |xs| > 0
    ensures Join(xs + [x], sep) == Join(xs, sep) + [sep] + x
  {
    if |xs| > 1 {
      assert (xs + [x])[1..] == xs[1..] + [x];
      JoinSnoc(xs[1..], x, sep);
    }
  }

  /** Joining one more piece of `xs` appends the separator and that piece, except for the first piece. */
  lemma JoinPrefix(xs: seq<string>, i: int, sep: char)
    requires 0 <= i < |xs|
    ensures Join(xs[..i + 1], sep) == if i == 0 then xs[0] else Join(xs[..i], sep) + [sep] + xs[i]
  {
    if i > 0 {
      assert xs[..i + 1] == xs[..i] + [xs[i]];
      JoinSnoc(xs[..i], xs[i], sep);
    }
  }

  /** The position of the first `c` in `s`. */
  function FirstIndex(s: string, c: char): (i: nat)
    requires c in s
    ensures i < |s| && s[i] == c && c !in s[..i]
  {
    if s[0] == c then 0 else
      var i := FirstIndex(s[1..], c);
      assert s[1..][..i] == s[1..i + 1];
      i + 1
  }

  /** The pieces of `s` between occurrences of `sep`, as Go's `strings.Split`. */
  function Split(s: string, sep: char): (pieces: seq<string>)
    ensures |pieces| > 0
    decreases |s|
  {
    if sep !in s then [s] else
      var i := FirstIndex(s, sep);
      [s[..i]] + Split(s[i + 1..], sep)
  }

  /** Splitting undoes joining when no piece holds the separator. */
  lemma {:induction false} SplitJoin(xs: seq<string>, sep: char)
    requires |xs| > 0
    requires forall i :: 0 <= i < |xs| ==> sep !in xs[i]
    ensures Split(Join(xs, sep), sep) == xs
  {
    if |xs| > 1 {
      var s := Join(xs, sep);
      var n := |xs[0]|;
      assert s[n] == sep;
      var i := FirstIndex(s, sep);
      assert i == n;
      assert s[..i] == xs[0];
      assert s[i + 1..] == Join(xs[1..], sep);
      SplitJoin(xs[1..], sep);
    }
  }

  predicate IsUpper(c: char)
  {
    'A' <= c <= 'Z'
  }

  /** Lower-cases the ASCII letters of `s` and leaves every other character alone. */
  function AsciiLower(s: string): (r: string)
    ensures |r| == |s|
    ensures forall i :: 0 <= i < |s| ==> !IsUpper(r[i])
    ensures forall i :: 0 <= i < |s| ==> r[i] == s[i] || (IsUpper(s[i]) && r[i] as int == s[i] as int + 32)
  {
    seq(|s|, i requires 0 <= i < |s| => if IsUpper(s[i]) then (s[i] as int + 32) as char else s[i])
  }
}
