/**
 * The parts of Python's `str` that the report generator relies on, for a
 * one-character separator: `str.find`, `str.count`, `str.split(sep, maxsplit)`
 * and `sep.join(parts)`.
 */
module PyStr {

  /** `s.find(c)`: the index of the first `c` in `s`, or -1 when there is none. */
  function Find(s: string, c: char): (i: int)
    ensures -1 <= i < |s|
    ensures 0 <= i ==> s[i] == c
  {
    if |s| == 0 then -1
    else if s[0] == c then 0
    else
      var j := Find(s[1..], c);
      if j == -1 then -1 else j + 1
  }

  /** No `c` comes before the index Find returns, and -1 means there is none at all. */
  lemma {:induction false} FindIsFirst(s: string, c: char)
    ensures Find(s, c) == -1 <==> c !in s
    ensures 0 <= Find(s, c) ==> c !in s[..Find(s, c)]
  {
    if |s| > 0 && s[0] != c {
      FindIsFirst(s[1..], c);
      assert s == [s[0]] + s[1..];
      var j := Find(s[1..], c);
      if 0 <= j {
        assert s[..j + 1] == [s[0]] + s[1..][..j];
      }
    }
  }

  /** `s.count(c)`: the number of occurrences of `c` in `s`. */
  function Count(s: string, c: char): nat
  {
    if |s| == 0 then 0
    else (if s[0] == c then 1 else 0) + Count(s[1..], c)
  }

  /**
   * `s.split(sep, maxsplit)`: cut `s` at each `sep`, from the left, at most
   * `maxsplit` times; a negative `maxsplit` (Python's default of -1) means
   * no limit. Empty parts are kept, and the empty string gives `[""]`.
   */
  function Split(s: string, sep: char, maxsplit: int): (parts: seq<string>)
    decreases |s|
  {
    var i := Find(s, sep);
    if i == -1 || maxsplit == 0 then [s]
    else [s[..i]] + Split(s[i + 1..], sep, maxsplit - 1)
  }

  /** `sep.join(parts)`: the parts with one `sep` between each two. */
  function Join(parts: seq<string>, sep: char): string
  {
    if |parts| == 0 then ""
    else if |parts| == 1 then parts[0]
    else parts[0] + [sep] + Join(parts[1..], sep)
  }

  /** No part of `parts` contains `sep`. */
  predicate SepFree(parts: seq<string>, sep: char)
  {
    forall k :: 0 <= k < |parts| ==> sep !in parts[k]
  }

  // ---------------------------------------------------------------- Count

  /** Counting distributes over concatenation. */
  lemma {:induction false} CountAppend(a: string, b: string, c: char)
    ensures Count(a + b, c) == Count(a, c) + Count(b, c)
  {
    if |a| == 0 {
      assert a + b == b;
    } else {
      assert (a + b)[1..] == a[1..] + b;
      CountAppend(a[1..], b, c);
    }
  }

  /** A string has no occurrence of `c` exactly when its count is zero. */
  lemma {:induction false} CountZero(s: string, c: char)
    ensures Count(s, c) == 0 <==> c !in s
  {
    if |s| > 0 {
      CountZero(s[1..], c);
      assert s == [s[0]] + s[1..];
    }
  }

  /** Cutting at the first `c` removes exactly one occurrence from the count. */
  lemma CountAtFirst(s: string, c: char, i: int)
    requires i == Find(s, c) && 0 <= i
    ensures Count(s, c) == 1 + Count(s[i + 1..], c)
  {
    FindIsFirst(s, c);
    assert s == s[..i] + [c] + s[i + 1..];
    CountAppend(s[..i] + [c], s[i + 1..], c);
    CountAppend(s[..i], [c], c);
    CountZero(s[..i], c);
  }

  // ---------------------------------------------------------------- Split

  /** Splitting always yields at least one part, and at most maxsplit + 1. */
  lemma {:induction false} SplitBounds(s: string, sep: char, maxsplit: int)
    ensures 1 <= |Split(s, sep, maxsplit)|
    ensures 0 <= maxsplit ==> |Split(s, sep, maxsplit)| <= maxsplit + 1
    decreases |s|
  {
    var i := Find(s, sep);
    if i != -1 && maxsplit != 0 {
      SplitBounds(s[i + 1..], sep, maxsplit - 1);
    }
  }

  /** Round trip: joining the parts of a split with the same separator gives the string back. */
  lemma {:induction false} JoinSplit(s: string, sep: char, maxsplit: int)
    ensures Join(Split(s, sep, maxsplit), sep) == s
    decreases |s|
  {
    var i := Find(s, sep);
    if i != -1 && maxsplit != 0 {
      var rest := Split(s[i + 1..], sep, maxsplit - 1);
      SplitBounds(s[i + 1..], sep, maxsplit - 1);
      JoinSplit(s[i + 1..], sep, maxsplit - 1);
      assert ([s[..i]] + rest)[1..] == rest;
      assert s == s[..i] + [sep] + s[i + 1..];
    }
  }

  /** How many cuts `s.split(sep, maxsplit)` makes: every separator, unless maxsplit is reached first. */
  function Cuts(s: string, sep: char, maxsplit: int): nat
  {
    if maxsplit < 0 || Count(s, sep) <= maxsplit then Count(s, sep) else maxsplit
  }

  /** Once one separator is cut off, one cut fewer remains to make. */
  lemma CutsAfterCut(s: string, tail: string, sep: char, maxsplit: int)
    requires maxsplit != 0 && Count(s, sep) == Count(tail, sep) + 1
    ensures Cuts(s, sep, maxsplit) == Cuts(tail, sep, maxsplit - 1) + 1
  {
  }

  /** The number of parts is one more than the number of cuts. */
  lemma {:induction false} SplitLength(s: string, sep: char, maxsplit: int)
    ensures |Split(s, sep, maxsplit)| == Cuts(s, sep, maxsplit) + 1
    decreases |s|
  {
    var i := Find(s, sep);
    FindIsFirst(s, sep);
    if i == -1 {
      assert Split(s, sep, maxsplit) == [s];
      CountZero(s, sep);
    } else if maxsplit == 0 {
      assert Split(s, sep, maxsplit) == [s];
    } else {
      var tail := s[i + 1..];
      assert Split(s, sep, maxsplit) == [s[..i]] + Split(tail, sep, maxsplit - 1);
      CountAtFirst(s, sep, i);
      CutsAfterCut(s, tail, sep, maxsplit);
      SplitLength(tail, sep, maxsplit - 1);
    }
  }

  /** Every part but the last is free of the separator. */
  lemma {:induction false} SplitPartsSepFree(s: string, sep: char, maxsplit: int)
    ensures forall k :: 0 <= k < |Split(s, sep, maxsplit)| - 1 ==> sep !in Split(s, sep, maxsplit)[k]
    decreases |s|
  {
    var parts := Split(s, sep, maxsplit);
    var i := Find(s, sep);
    if i != -1 && maxsplit != 0 {
      var tail := s[i + 1..];
      var rest := Split(tail, sep, maxsplit - 1);
      assert parts == [s[..i]] + rest;
      FindIsFirst(s, sep);
      SplitPartsSepFree(tail, sep, maxsplit - 1);
      forall k | 0 <= k < |parts| - 1 ensures sep !in parts[k] {
        if k > 0 {
          assert parts[k] == rest[k - 1];
        }
      }
    }
  }

  /** The last part holds a separator exactly when maxsplit ran out before the separators did. */
  lemma {:induction false} SplitLastPart(s: string, sep: char, maxsplit: int)
    ensures 1 <= |Split(s, sep, maxsplit)|
    ensures sep in Split(s, sep, maxsplit)[|Split(s, sep, maxsplit)| - 1] <==> 0 <= maxsplit < Count(s, sep)
    decreases |s|
  {
    var parts := Split(s, sep, maxsplit);
    var i := Find(s, sep);
    FindIsFirst(s, sep);
    CountZero(s, sep);
    if i == -1 || maxsplit == 0 {
      assert parts == [s];
    } else {
      var tail := s[i + 1..];
      var rest := Split(tail, sep, maxsplit - 1);
      assert parts == [s[..i]] + rest;
      SplitLastPart(tail, sep, maxsplit - 1);
      var last := rest[|rest| - 1];
      assert parts[|parts| - 1] == last;
      CountAtFirst(s, sep, i);
      assert (0 <= maxsplit < Count(s, sep)) == (0 <= maxsplit - 1 < Count(tail, sep));
    }
  }

  /**
   * With maxsplit 1, a string holding the separator splits into the part
   * before its first separator and all the rest; a string without one
   * comes back whole.
   */
  lemma SplitOnce(s: string, sep: char)
    ensures sep in s ==>
      var parts := Split(s, sep, 1);
      |parts| == 2 && sep !in parts[0] && parts[0] + [sep] + parts[1] == s
    ensures sep !in s ==> Split(s, sep, 1) == [s]
  {
    var i := Find(s, sep);
    FindIsFirst(s, sep);
    if i == -1 {
      assert Split(s, sep, 1) == [s];
    } else {
      var head, tail := s[..i], s[i + 1..];
      assert Split(tail, sep, 0) == [tail];
      assert Split(s, sep, 1) == [head, tail];
      assert s == head + [sep] + tail;
    }
  }

  /**
   * With no limit, the parts are all free of the separator, one more than
   * the separators in `s`, and rejoin to `s`.
   */
  lemma SplitUnlimited(s: string, sep: char, maxsplit: int)
    requires maxsplit < 0
    ensures |Split(s, sep, maxsplit)| == Count(s, sep) + 1
    ensures SepFree(Split(s, sep, maxsplit), sep)
    ensures Join(Split(s, sep, maxsplit), sep) == s
  {
    var parts := Split(s, sep, maxsplit);
    SplitLength(s, sep, maxsplit);
    SplitPartsSepFree(s, sep, maxsplit);
    SplitLastPart(s, sep, maxsplit);
    JoinSplit(s, sep, maxsplit);
    forall k | 0 <= k < |parts| ensures sep !in parts[k] {
      if k == |parts| - 1 {
        assert sep !in parts[|parts| - 1];
      }
    }
  }

  /** The first separator of `a + [sep] + b` is the one after `a` when `a` has none. */
  lemma {:induction false} FindAfterSepFree(a: string, b: string, sep: char)
    requires sep !in a
    ensures Find(a + [sep] + b, sep) == |a|
  {
    if |a| > 0 {
      assert (a + [sep] + b)[1..] == a[1..] + [sep] + b;
      FindAfterSepFree(a[1..], b, sep);
    }
  }

  /**
   * Splitting inverts joining: parts free of the separator come back
   * unchanged, provided maxsplit allows every cut.
   */
  lemma {:induction false} SplitJoin(parts: seq<string>, sep: char, maxsplit: int)
    requires 1 <= |parts| && SepFree(parts, sep)
    requires maxsplit < 0 || |parts| - 1 <= maxsplit
    ensures Split(Join(parts, sep), sep, maxsplit) == parts
  {
    if |parts| > 1 {
      var a, b := parts[0], Join(parts[1..], sep);
      var s := a + [sep] + b;
      assert Join(parts, sep) == s;
      FindAfterSepFree(a, b, sep);
      assert s[..|a|] == a && s[|a| + 1..] == b;
      assert Split(s, sep, maxsplit) == [a] + Split(b, sep, maxsplit - 1);
      SplitJoin(parts[1..], sep, maxsplit - 1);
      assert parts == [a] + parts[1..];
    } else {
      assert sep !in parts[0];
      assert Join(parts, sep) == parts[0];
    }
  }
}
