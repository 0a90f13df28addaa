/**
 String helpers the sink relies on: prefix test, splitting on a separator
 character (Go's `strings.Split` with a one-character separator) and joining
 with a separator (Go's `strings.Join`).
 */
module Strings {

  predicate StartsWith(s: string, prefix: string) {
    |prefix| <= |s| && s[..|prefix|] == prefix
  }

  /** Number of occurrences of `c` in `s`. */
  function Count(s: string, c: char): nat {
    if |s| == 0 then 0
    else (if s[0] == c then 1 else 0) + Count(s[1..], c)
  }

  lemma {:induction false} CountAppend(a: string, b: string, c: char)
    ensures Count(a + b, c) == Count(a, c) + Count(b, c)
    decreases |a|
  {
    if |a| == 0 {
      assert a + b == b;
    } else {
      assert (a + b)[1..] == a[1..] + b;
      CountAppend(a[1..], b, c);
    }
  }

  lemma {:induction false} CountAbsent(s: string, c: char)
    ensures Count(s, c) == 0 <==> c !in s
    decreases |s|
  {
    if |s| > 0 {
      CountAbsent(s[1..], c);
      assert s == [s[0]] + s[1..];
    }
  }

  /** Position of the first occurrence of `c` in `s`. */
  function IndexOf(s: string, c: char): (i: nat)
    requires c in s
    ensures i < |s| && s[i] == c
    ensures forall j :: 0 <= j < i ==> s[j] != c
  {
    if s[0] == c then 0 else 1 + IndexOf(s[1..], c)
  }

  /** `parts` joined with `sep` between consecutive elements. */
  function Join(parts: seq<string>, sep: string): string {
    if |parts| == 0 then ""
    else if |parts| == 1 then parts[0]
    else parts[0] + sep + Join(parts[1..], sep)
  }

  /** Cutting `s` at the first `c`: the part before holds no `c`, and the part
      after holds one `c` fewer than `s`. */
  lemma SplitAtFirst(s: string, c: char)
    requires c in s
    ensures var i := IndexOf(s, c);
      s == s[..i] + [c] + s[i + 1..] && c !in s[..i] && Count(s, c) == Count(s[i + 1..], c) + 1
  {
    var i := IndexOf(s, c);
    assert s == s[..i] + [c] + s[i + 1..];
    CountAppend(s[..i] + [c], s[i + 1..], c);
    CountAppend(s[..i], [c], c);
    CountAbsent(s[..i], c);
  }

  /** The pieces of `s` between occurrences of `c`, as Go's `strings.Split(s, sep)`
      returns them for a one-character `sep`: always at least one piece, and
      the pieces glued back with `c` give `s`. */
  function SplitOn(s: string, c: char): (parts: seq<string>)
    ensures |parts| == Count(s, c) + 1
    ensures forall k :: 0 <= k < |parts| ==> c !in parts[k]
    ensures Join(parts, [c]) == s
    ensures c !in s ==> parts == [s]
    ensures c in s ==> parts[0] == s[..IndexOf(s, c)]
    decreases |s|
  {
    if c !in s then
      CountAbsent(s, c);
      [s]
    else
      var i := IndexOf(s, c);
      var rest := SplitOn(s[i + 1..], c);
      SplitAtFirst(s, c);
      assert ([s[..i]] + rest)[1..] == rest;
      [s[..i]] + rest
  }

  /** Splitting `p + [c] + rest`, where `p` has no separator, gives `p`
      followed by the pieces of `rest`. */
  lemma SplitCons(p: string, c: char, rest: string)
    requires c !in p
    ensures SplitOn(p + [c] + rest, c) == [p] + SplitOn(rest, c)
  {
    var s := p + [c] + rest;
    assert s[|p|] == c;
    assert forall j :: 0 <= j < |p| ==> s[j] == p[j];
    assert IndexOf(s, c) == |p|;
    assert s[..|p|] == p && s[|p| + 1..] == rest;
  }

  /** Splitting undoes joining when no part contains the separator. */
  lemma {:induction false} SplitJoin(parts: seq<string>, c: char)
    requires |parts| >= 1
    requires forall k :: 0 <= k < |parts| ==> c !in parts[k]
    ensures SplitOn(Join(parts, [c]), c) == parts
    decreases |parts|
  {
    if |parts| > 1 {
      var tail := Join(parts[1..], [c]);
      assert Join(parts, [c]) == parts[0] + [c] + tail;
      SplitCons(parts[0], c, tail);
      SplitJoin(parts[1..], c);
      assert parts == [parts[0]] + parts[1..];
    }
  }
}
