/**
 * The two functions of Go's `strings` package the core uses, specialised to a
 * one-character separator (the only kind the core passes): `strings.Split` and
 * `strings.Join`.
 */
module Strings {

  /** Number of occurrences of `c` in `s` (Go `strings.Count` for a one-character separator). */
  function Count(s: string, c: char): nat
  {
    if |s| == 0 then 0 else (if s[0] == c then 1 else 0) + Count(s[1..], c)
  }

  lemma {:induction false} CountZero(s: string, c: char)
    ensures Count(s, c) == 0 <==> c !in s
  {
    if |s| > 0 {
      CountZero(s[1..], c);
      assert s == [s[0]] + s[1..];
    }
  }

  /**
   * `strings.Split(s, sep)`: the maximal pieces of `s` between occurrences of
   * `sep`. There is always one more piece than there are separators, and no
   * piece contains the separator.
   */
  function Split(s: string, sep: char): (parts: seq<string>)
    ensures |parts| == Count(s, sep) + 1
    ensures forall i :: 0 <= i < |parts| ==> sep !in parts[i]
    decreases |s|
  {
    if |s| == 0 then [""]
    else
      var rest := Split(s[1..], sep);
      if s[0] == sep then [""] + rest
      else [[s[0]] + rest[0]] + rest[1..]
  }

  /** `strings.Join(parts, sep)`. */
  function Join(parts: seq<string>, sep: char): (s: string)
    ensures |parts| == 1 ==> s == parts[0]
    ensures |parts| > 0 ==> |parts[0]| <= |s| && s[..|parts[0]|] == parts[0]
    decreases |parts|
  {
    if |parts| == 0 then ""
    else if |parts| == 1 then parts[0]
    else parts[0] + [sep] + Join(parts[1..], sep)
  }

  /** Joining the pieces of a split with the same separator gives back the input. */
  lemma {:induction false} JoinSplit(s: string, sep: char)
    ensures Join(Split(s, sep), sep) == s
    decreases |s|
  {
    if |s| > 0 {
      var rest := Split(s[1..], sep);
      JoinSplit(s[1..], sep);
      assert s == [s[0]] + s[1..];
      if s[0] == sep {
        assert Split(s, sep) == [""] + rest;
      } else {
        assert Split(s, sep) == [[s[0]] + rest[0]] + rest[1..];
        JoinPrepend(s[0], rest, sep);
      }
    }
  }

  /** A character put in front of the first piece ends up in front of the join. */
  lemma {:induction false} JoinPrepend(c: char, parts: seq<string>, sep: char)
    requires |parts| >= 1
    ensures Join([[c] + parts[0]] + parts[1..], sep) == [c] + Join(parts, sep)
  {
    var ps := [[c] + parts[0]] + parts[1..];
    assert ps[1..] == parts[1..];
    if |parts| > 1 {
      assert Join(ps, sep) == ([c] + parts[0]) + [sep] + Join(parts[1..], sep);
      assert Join(parts, sep) == parts[0] + [sep] + Join(parts[1..], sep);
    }
  }

  /** Splitting a join of separator-free pieces gives back the pieces. */
  lemma {:induction false} SplitJoin(parts: seq<string>, sep: char)
    requires |parts| >= 1
    requires forall i :: 0 <= i < |parts| ==> sep !in parts[i]
    ensures Split(Join(parts, sep), sep) == parts
    decreases |parts|
  {
    if |parts| == 1 {
      SplitNoSep(parts[0], sep);
    } else {
      var tail := parts[1..];
      assert forall i :: 0 <= i < |tail| ==> tail[i] == parts[i + 1];
      SplitJoin(tail, sep);
      assert Join(parts, sep) == parts[0] + [sep] + Join(tail, sep);
      SplitCons(parts[0], Join(tail, sep), sep);
      assert parts == [parts[0]] + tail;
    }
  }

  /** A string without the separator splits into itself alone. */
  lemma {:induction false} SplitNoSep(s: string, sep: char)
    requires sep !in s
    ensures Split(s, sep) == [s]
    decreases |s|
  {
    if |s| > 0 {
      assert sep !in s[1..] by { assert forall x :: x in s[1..] ==> x in s; }
      SplitNoSep(s[1..], sep);
      assert s == [s[0]] + s[1..];
    }
  }

  /** A separator-free piece followed by the separator splits off as the first piece. */
  lemma {:induction false} SplitCons(a: string, t: string, sep: char)
    requires sep !in a
    ensures Split(a + [sep] + t, sep) == [a] + Split(t, sep)
    decreases |a|
  {
    var s := a + [sep] + t;
    if |a| == 0 {
      assert s == [sep] + t && s[1..] == t;
    } else {
      assert sep !in a[1..] by { assert forall x :: x in a[1..] ==> x in a; }
      SplitCons(a[1..], t, sep);
      assert s[0] == a[0] && s[1..] == a[1..] + [sep] + t;
      assert [a[0]] + a[1..] == a;
    }
  }

  /** Peeling the last piece off a join. */
  lemma {:induction false} JoinLast(parts: seq<string>, sep: char)
    requires |parts| >= 2
    ensures Join(parts, sep) == Join(parts[..|parts| - 1], sep) + [sep] + parts[|parts| - 1]
    decreases |parts|
  {
    if |parts| > 2 {
      JoinLast(parts[1..], sep);
      assert parts[1..][..|parts| - 2] == parts[..|parts| - 1][1..];
      assert parts[1..][|parts| - 2] == parts[|parts| - 1];
    }
  }

  /**
   * The text of `fmt.Errorf(prefix + "%w", cause)`: the cause's text, or
   * `%!w(<nil>)` when the wrapped error is nil.
   */
  function WrapError(prefix: string, cause: string, hasCause: bool): string
  {
    prefix + (if hasCause then cause else "%!w(<nil>)")
  }

  /** Each of four concatenated pieces can be sliced back out of the whole. */
  lemma Pieces(a: string, b: string, c: string, d: string)
    ensures var t := a + b + c + d;
      && |t| == |a| + |b| + |c| + |d|
      && t[..|a|] == a
      && t[|a|..|a| + |b|] == b
      && t[|a| + |b|..|a| + |b| + |c|] == c
      && t[|a| + |b| + |c|..] == d
  {
    var t := a + b + c + d;
    assert t == a + (b + (c + d));
    assert t[|a|..] == b + (c + d);
    assert t[|a| + |b|..] == c + d;
  }
}
