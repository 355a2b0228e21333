/** String operations the program takes from Go's `strings` and `fmt`
    packages, over `string` = `seq<char>`. */
module Strings {

  /** `p` is a prefix of `s`. */
  predicate StartsWith(s: string, p: string)
  {
    |p| <= |s| && s[..|p|] == p
  }

  /** `t` occurs somewhere inside `s` (Go's `strings.Contains`). */
  ghost predicate Contains(s: string, t: string)
  {
    exists k :: 0 <= k <= |s| && StartsWith(s[k..], t)
  }

  /** Position of the first occurrence of `c` in `s`. */
  function IndexOf(s: string, c: char): (k: nat)
    requires c in s
    ensures k < |s| && s[k] == c
    ensures c !in s[..k]
  {
    if s[0] == c then 0
    else
      var k' := IndexOf(s[1..], c);
      assert s[..k' + 1] == [s[0]] + s[1..][..k'];
      k' + 1
  }

  /** Go's `strings.Join` with a one-character separator. */
  function Join(parts: seq<string>, sep: char): string
  {
    if |parts| == 0 then ""
    else if |parts| == 1 then parts[0]
    else parts[0] + [sep] + Join(parts[1..], sep)
  }

  /** Go's `strings.Split` with a one-character separator: the pieces of `s`
      between occurrences of `sep`, in order; a string without `sep` is one
      piece (so the empty string gives `[""]`). */
  function Split(s: string, sep: char): (parts: seq<string>)
    ensures |parts| >= 1
    ensures |parts| == 1 <==> sep !in s
    ensures forall i :: 0 <= i < |parts| ==> sep !in parts[i]
    ensures Join(parts, sep) == s
    decreases |s|
  {
    if sep !in s then [s]
    else
      var k := IndexOf(s, sep);
      var rest := Split(s[k + 1..], sep);
      assert s == s[..k] + [sep] + s[k + 1..];
      [s[..k]] + rest
  }

  /** `s` with every occurrence of `c` deleted. */
  function Without(s: string, c: char): (r: string)
    ensures c !in r
    ensures |r| <= |s|
  {
    if |s| == 0 then ""
    else (if s[0] == c then "" else [s[0]]) + Without(s[1..], c)
  }

  /** Number of occurrences of `c` in `s`. */
  function Count(s: string, c: char): (n: nat)
    ensures n <= |s|
    ensures n == 0 <==> c !in s
  {
    if |s| == 0 then 0
    else (if s[0] == c then 1 else 0) + Count(s[1..], c)
  }

  /** Deleting a character distributes over concatenation. */
  lemma {:induction false} WithoutAppend(a: string, b: string, c: char)
    ensures Without(a + b, c) == Without(a, c) + Without(b, c)
    decreases |a|
  {
    if |a| == 0 {
      assert a + b == b;
    } else {
      assert (a + b)[1..] == a[1..] + b;
      WithoutAppend(a[1..], b, c);
    }
  }

  /** Deleting a character that does not occur changes nothing. */
  lemma {:induction false} WithoutAbsent(s: string, c: char)
    requires c !in s
    ensures Without(s, c) == s
    decreases |s|
  {
    if |s| > 0 {
      assert c !in s[1..];
      WithoutAbsent(s[1..], c);
    }
  }

  /** Counting distributes over concatenation. */
  lemma {:induction false} CountAppend(a: string, b: string, c: char)
    ensures Count(a + b, c) == Count(a, c) + Count(b, c)
    decreases |a|
  {
    if |a| == 0 {
      assert a + b == b;
    } else {
      assert (a + b)[1..] == a[1..] + b;
      CountAppend(a[1..], b, c);
    }
  }

  /** Splitting a separator-joined list of separator-free pieces gives the
      pieces back: `Split` inverts `Join`. */
  lemma {:induction false} SplitJoin(parts: seq<string>, sep: char)
    requires |parts| >= 1
    requires forall i :: 0 <= i < |parts| ==> sep !in parts[i]
    ensures Split(Join(parts, sep), sep) == parts
    decreases |parts|
  {
    if |parts| > 1 {
      var s := Join(parts, sep);
      var tail := Join(parts[1..], sep);
      assert s == parts[0] + [sep] + tail;
      assert s[|parts[0]|] == sep;
      assert s[..|parts[0]|] == parts[0];
      assert sep in s;
      var k := IndexOf(s, sep);
      assert k >= |parts[0]| by {
        assert forall j :: 0 <= j < |parts[0]| ==> s[j] == parts[0][j];
      }
      assert s[k + 1..] == tail;
      SplitJoin(parts[1..], sep);
      assert Split(s, sep) == [parts[0]] + Split(tail, sep);
    }
  }

  /** Splitting `a + [sep] + b`, where `b` has no separator, adds `b` as a
      last piece after the pieces of `a`. */
  lemma SplitAppendLast(a: string, b: string, sep: char)
    requires sep !in b
    ensures Split(a + [sep] + b, sep) == Split(a, sep) + [b]
  {
    var pa := Split(a, sep);
    var ps := pa + [b];
    assert forall i :: 0 <= i < |ps| ==> sep !in ps[i] by {
      forall i | 0 <= i < |ps| ensures sep !in ps[i] {
        if i < |pa| { assert ps[i] == pa[i]; }
      }
    }
    JoinAppendLast(pa, b, sep);
    SplitJoin(ps, sep);
  }

  /** `Join` of a list with one more piece appends the separator and that piece. */
  lemma {:induction false} JoinAppendLast(parts: seq<string>, b: string, sep: char)
    requires |parts| >= 1
    ensures Join(parts + [b], sep) == Join(parts, sep) + [sep] + b
    decreases |parts|
  {
    if |parts| == 1 {
      assert parts + [b] == [parts[0], b];
      assert ([parts[0], b])[1..] == [b];
    } else {
      assert (parts + [b])[1..] == parts[1..] + [b];
      JoinAppendLast(parts[1..], b, sep);
    }
  }

  /** An occurrence survives appending text after it. */
  lemma ContainsAppend(s: string, t: string, y: string)
    requires Contains(s, t)
    ensures Contains(s + y, t)
  {
    var k :| 0 <= k <= |s| && StartsWith(s[k..], t);
    assert (s + y)[k..][..|t|] == s[k..][..|t|];
  }

  /** An occurrence survives prepending text before it. */
  lemma ContainsPrepend(x: string, s: string, t: string)
    requires Contains(s, t)
    ensures Contains(x + s, t)
  {
    var k :| 0 <= k <= |s| && StartsWith(s[k..], t);
    assert (x + s)[|x| + k..] == s[k..];
  }

  /** Every string occurs in itself. */
  lemma ContainsSelf(t: string)
    ensures Contains(t, t)
  {
    assert StartsWith(t[0..], t);
  }

  /** A string starts with any string it is built from by appending. */
  lemma StartsWithConcat(p: string, x: string)
    ensures StartsWith(p + x, p)
  {
    assert (p + x)[..|p|] == p;
  }
}
