/**
  * Joining parts with a separator and splitting them apart again.
  *
  * The emitter uses the same operation twice: case blocks (sequences of lines) are
  * joined with one blank line, and the resulting lines are joined with a newline
  * character into the source text. `Split` is the inverse used to read the text back.
  */
module Sequences {

  /** `parts` laid end to end, with exactly one `sep` between consecutive parts. */
  function Join<T>(parts: seq<seq<T>>, sep: T): seq<T>
    decreases |parts|
  {
    if |parts| == 0 then []
    else if |parts| == 1 then parts[0]
    else parts[0] + [sep] + Join(parts[1..], sep)
  }

  /** The position of the first `x` in `s`. */
  function IndexOf<T(==)>(s: seq<T>, x: T): (k: nat)
    requires x in s
    ensures k < |s| && s[k] == x
    ensures x !in s[..k]
  {
    if s[0] == x then 0
    else
      assert s == [s[0]] + s[1..];
      1 + IndexOf(s[1..], x)
  }

  /** The maximal `sep`-free pieces of `s`, in order; always at least one piece. */
  function Split<T(==)>(s: seq<T>, sep: T): (parts: seq<seq<T>>)
    ensures |parts| >= 1
    decreases |s|
  {
    if sep in s then
      var k := IndexOf(s, sep);
      [s[..k]] + Split(s[k + 1..], sep)
    else
      [s]
  }

  /** Where part `i` begins in `Join(parts, sep)`: every earlier part plus its separator. */
  function Offset<T>(parts: seq<seq<T>>, i: nat): nat
    requires i <= |parts|
  {
    if i == 0 then 0 else |parts[0]| + 1 + Offset(parts[1..], i - 1)
  }

  lemma {:induction false} IndexOfAfterPrefix<T>(a: seq<T>, x: T, b: seq<T>)
    requires x !in a
    ensures IndexOf(a + [x] + b, x) == |a|
  {
    if a != [] {
      assert (a + [x] + b)[1..] == a[1..] + [x] + b;
      IndexOfAfterPrefix(a[1..], x, b);
    }
  }

  /** Splitting a joined sequence gives back its parts, when no part contains the separator. */
  lemma {:induction false} SplitJoin<T>(parts: seq<seq<T>>, sep: T)
    requires |parts| >= 1
    requires forall i :: 0 <= i < |parts| ==> sep !in parts[i]
    ensures Split(Join(parts, sep), sep) == parts
    decreases |parts|
  {
    if |parts| > 1 {
      var rest := Join(parts[1..], sep);
      var s := parts[0] + [sep] + rest;
      var k := |parts[0]|;
      IndexOfAfterPrefix(parts[0], sep, rest);
      assert s[..k] == parts[0];
      assert s[k + 1..] == rest;
      assert Split(s, sep) == [parts[0]] + Split(rest, sep);
      SplitJoin(parts[1..], sep);
      assert parts == [parts[0]] + parts[1..];
    }
  }

  /** Joining the pieces of a split gives back the original sequence. */
  lemma {:induction false} JoinSplit<T>(s: seq<T>, sep: T)
    ensures Join(Split(s, sep), sep) == s
    decreases |s|
  {
    if sep in s {
      var k := IndexOf(s, sep);
      var tail := Split(s[k + 1..], sep);
      JoinSplit(s[k + 1..], sep);
      assert Split(s, sep) == [s[..k]] + tail;
      assert ([s[..k]] + tail)[1..] == tail;
      assert s == s[..k] + [sep] + s[k + 1..];
    }
  }

  /**
    * The layout of `Join(parts, sep)`: part `i` occupies the positions from `Offset(parts, i)`
    * on, in order; a single `sep` follows every part but the last, and nothing follows the last.
    */
  lemma {:induction false} JoinLayout<T>(parts: seq<seq<T>>, sep: T, i: nat)
    requires i < |parts|
    ensures var joined, o := Join(parts, sep), Offset(parts, i);
      && o + |parts[i]| <= |joined|
      && joined[o..o + |parts[i]|] == parts[i]
      && (i + 1 < |parts| ==> o + |parts[i]| < |joined| && joined[o + |parts[i]|] == sep)
      && (i + 1 == |parts| ==> |joined| == o + |parts[i]|)
    decreases i
  {
    var joined := Join(parts, sep);
    if |parts| == 1 {
      assert joined == parts[0];
    } else if i == 0 {
      assert joined == parts[0] + [sep] + Join(parts[1..], sep);
      assert joined[..|parts[0]|] == parts[0];
    } else {
      var rest, d := Join(parts[1..], sep), |parts[0]| + 1;
      assert joined == parts[0] + [sep] + rest;
      JoinLayout(parts[1..], sep, i - 1);
      var o', n := Offset(parts[1..], i - 1), |parts[i]|;
      assert parts[1..][i - 1] == parts[i];
      assert Offset(parts, i) == d + o';
      assert rest[o'..o' + n] == parts[i];
      assert joined[d + o'..d + o' + n] == rest[o'..o' + n];
      if i + 1 < |parts| {
        assert joined[d + o' + n] == rest[o' + n];
      }
    }
  }

  /** A join of separator-free parts holds exactly one separator fewer than it has parts. */
  lemma {:induction false} JoinSeparatorCount<T>(parts: seq<seq<T>>, sep: T)
    requires |parts| >= 1
    requires forall i :: 0 <= i < |parts| ==> sep !in parts[i]
    ensures multiset(Join(parts, sep))[sep] == |parts| - 1
    decreases |parts|
  {
    if |parts| > 1 {
      JoinSeparatorCount(parts[1..], sep);
      assert multiset(parts[0])[sep] == 0;
      assert multiset(Join(parts, sep)) == multiset(parts[0]) + multiset{sep} + multiset(Join(parts[1..], sep));
    } else {
      assert multiset(parts[0])[sep] == 0;
    }
  }

  /** A join of non-empty parts begins with its first part's first element and ends with its last part's last one. */
  lemma {:induction false} JoinEnds<T>(parts: seq<seq<T>>, sep: T)
    requires |parts| >= 1
    requires forall i :: 0 <= i < |parts| ==> |parts[i]| > 0
    ensures var joined, last := Join(parts, sep), parts[|parts| - 1];
      |joined| > 0 && joined[0] == parts[0][0] && joined[|joined| - 1] == last[|last| - 1]
    decreases |parts|
  {
    if |parts| > 1 {
      JoinEnds(parts[1..], sep);
    }
  }
}
