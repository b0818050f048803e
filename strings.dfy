/**
 * The JavaScript string operations the server relies on: `trim`, `startsWith`,
 * `indexOf`, `split` on one character, and joining pieces back together.
 * Strings are sequences of Unicode scalar values.
 */
module Strings {
  import opened Wrappers

  /** The code points ECMAScript counts as WhiteSpace or LineTerminator, which `String.prototype.trim` removes. */
  predicate IsJsWhitespace(c: char) {
    var n := c as int;
    n == 0x09 || n == 0x0A || n == 0x0B || n == 0x0C || n == 0x0D || n == 0x20
    || n == 0xA0 || n == 0x1680 || (0x2000 <= n <= 0x200A)
    || n == 0x2028 || n == 0x2029 || n == 0x202F || n == 0x205F || n == 0x3000 || n == 0xFEFF
  }

  predicate AllWhitespace(s: string) {
    forall i :: 0 <= i < |s| ==> IsJsWhitespace(s[i])
  }

  /** Number of whitespace characters at the start of `s`. */
  function LeadingWhitespace(s: string): (n: nat)
    ensures n <= |s|
    ensures AllWhitespace(s[..n])
    ensures n < |s| ==> !IsJsWhitespace(s[n])
  {
    if s != [] && IsJsWhitespace(s[0]) then
      var m := LeadingWhitespace(s[1..]);
      assert s[..1 + m] == [s[0]] + s[1..][..m];
      1 + m
    else 0
  }

  /** Number of whitespace characters at the end of `s`. */
  function TrailingWhitespace(s: string): (n: nat)
    ensures n <= |s|
    ensures AllWhitespace(s[|s| - n..])
    ensures n < |s| ==> !IsJsWhitespace(s[|s| - 1 - n])
  {
    if s != [] && IsJsWhitespace(s[|s| - 1]) then
      var init := s[..|s| - 1];
      var m := TrailingWhitespace(init);
      SuffixOfInit(s, m);
      AllWhitespaceAppend(init[|init| - m..], [s[|s| - 1]]);
      1 + m
    else 0
  }

  /** The last `m + 1` characters of `s` are the last `m` of all but its last, then its last. */
  lemma SuffixOfInit(s: string, m: nat)
    requires m < |s|
    ensures s[|s| - (1 + m)..] == s[..|s| - 1][|s| - 1 - m..] + [s[|s| - 1]]
    ensures m + 1 < |s| ==> s[|s| - 2 - m] == s[..|s| - 1][|s| - 2 - m]
  {
  }

  /** `String.prototype.trim`: `s` without its leading and trailing whitespace. */
  function Trim(s: string): (r: string)
    ensures |r| <= |s|
    ensures r == [] || (!IsJsWhitespace(r[0]) && !IsJsWhitespace(r[|r| - 1]))
    ensures r == [] <==> AllWhitespace(s)
  {
    var i := LeadingWhitespace(s);
    var rest := s[i..];
    var r := rest[..|rest| - TrailingWhitespace(rest)];
    assert r == [] ==> AllWhitespace(s) by {
      if r == [] {
        assert i == |s|;
        forall k | 0 <= k < |s| ensures IsJsWhitespace(s[k]) {
          assert s[k] == s[..i][k];
        }
      }
    }
    r
  }

  /** `s` is some whitespace, then `Trim(s)`, then some more whitespace. */
  lemma TrimIsInfix(s: string)
    ensures LeadingWhitespace(s) + |Trim(s)| <= |s|
    ensures s[LeadingWhitespace(s)..LeadingWhitespace(s) + |Trim(s)|] == Trim(s)
    ensures AllWhitespace(s[..LeadingWhitespace(s)])
    ensures AllWhitespace(s[LeadingWhitespace(s) + |Trim(s)|..])
  {
    var i := LeadingWhitespace(s);
    var rest := s[i..];
    var t := TrailingWhitespace(rest);
    assert Trim(s) == rest[..|rest| - t];
    InfixFacts(s, i, t, Trim(s));
  }

  /** The middle part left when `i` characters are cut from the front of `s` and then `t` whitespace characters from the back. */
  lemma InfixFacts(s: string, i: nat, t: nat, r: string)
    requires i <= |s| && t <= |s| - i
    requires r == s[i..][..|s| - i - t]
    requires AllWhitespace(s[i..][|s| - i - t..])
    ensures i + |r| <= |s| && s[i..i + |r|] == r
    ensures AllWhitespace(s[i + |r|..])
  {
    SliceOfSlice(s, i, |s| - i - t);
  }

  /** Slicing a suffix of `s` is slicing `s` itself. */
  lemma SliceOfSlice(s: string, i: nat, j: nat)
    requires i + j <= |s|
    ensures s[i..][..j] == s[i..i + j] && s[i..][j..] == s[i + j..]
  {
  }

  /** A slice of `s` splits `s`, followed by `t`, into three parts. */
  lemma InfixSplit(s: string, i: nat, r: string, t: string)
    requires i + |r| <= |s| && s[i..i + |r|] == r
    ensures s + t == s[..i] + r + (s[i + |r|..] + t)
  {
    assert s == s[..i] + s[i..i + |r|] + s[i + |r|..];
  }

  /** Whitespace followed by whitespace is whitespace. */
  lemma AllWhitespaceAppend(a: string, b: string)
    requires AllWhitespace(a) && AllWhitespace(b)
    ensures AllWhitespace(a + b)
  {
    forall k | 0 <= k < |a + b| ensures IsJsWhitespace((a + b)[k]) {
      if k < |a| { assert (a + b)[k] == a[k]; } else { assert (a + b)[k] == b[k - |a|]; }
    }
  }

  /** Whitespace, then text with no whitespace at its ends, then whitespace: the trim is that text. */
  lemma TrimUnique(s: string, a: string, r: string, b: string)
    requires AllWhitespace(a) && AllWhitespace(b)
    requires r == [] || (!IsJsWhitespace(r[0]) && !IsJsWhitespace(r[|r| - 1]))
    requires s == a + r + b
    ensures Trim(s) == r
  {
    if r == [] {
      assert AllWhitespace(s) by {
        forall k | 0 <= k < |s| ensures IsJsWhitespace(s[k]) {
          if k < |a| { assert s[k] == a[k]; } else { assert s[k] == b[k - |a|]; }
        }
      }
    } else {
      var n := LeadingWhitespace(s);
      assert n == |a| by {
        assert s[|a|] == r[0];
      }
      var rest := s[n..];
      assert rest == r + b;
      var m := TrailingWhitespace(rest);
      assert m == |b| by {
        assert rest[|rest| - 1 - |b|] == r[|r| - 1];
      }
      assert rest[..|rest| - m] == r;
    }
  }

  /** A whitespace character at the end does not change the trim (a `\r` before a line break, say). */
  lemma TrimDropsTrailingWhitespace(x: string, c: char)
    requires IsJsWhitespace(c)
    ensures Trim(x + [c]) == Trim(x)
  {
    TrimIsInfix(x);
    var i := LeadingWhitespace(x);
    var r := Trim(x);
    var b := x[i + |r|..];
    InfixSplit(x, i, r, [c]);
    AllWhitespaceAppend(b, [c]);
    TrimUnique(x + [c], x[..i], r, b + [c]);
  }

  /** Trimming a second time changes nothing. */
  lemma TrimIdempotent(s: string)
    ensures Trim(Trim(s)) == Trim(s)
  {
    var r := Trim(s);
    if r != [] {
      assert LeadingWhitespace(r) == 0;
      assert r[0..] == r;
      assert TrailingWhitespace(r) == 0;
    }
  }

  /** Trimming a string that neither starts nor ends with whitespace returns it unchanged. */
  lemma TrimOfTrimmed(s: string)
    requires s == [] || (!IsJsWhitespace(s[0]) && !IsJsWhitespace(s[|s| - 1]))
    ensures Trim(s) == s
  {
    if s != [] {
      assert LeadingWhitespace(s) == 0;
      assert s[0..] == s;
      assert TrailingWhitespace(s) == 0;
    }
  }

  /** `s.startsWith(p)`. */
  predicate StartsWith(s: string, p: string) {
    |p| <= |s| && s[..|p|] == p
  }

  /** `s.lastIndexOf(c)`: the last position of `c`, or None for -1. */
  function LastIndexOf(s: string, c: char): (r: Option<nat>)
    ensures r.None? <==> c !in s
    ensures r.Some? ==> r.value < |s| && s[r.value] == c && c !in s[r.value + 1..]
  {
    if s == [] then None
    else if s[|s| - 1] == c then Some(|s| - 1)
    else
      var init := s[..|s| - 1];
      var r := LastIndexOf(init, c);
      assert r.None? <==> c !in s by {
        assert s == init + [s[|s| - 1]];
      }
      assert r.Some? ==> c !in s[r.value + 1..] by {
        if r.Some? {
          assert s[r.value + 1..] == init[r.value + 1..] + [s[|s| - 1]];
        }
      }
      r
  }

  /** `s.indexOf(c)`: the first position of `c`, or None for -1. */
  function IndexOf(s: string, c: char): (r: Option<nat>)
    ensures r.None? <==> c !in s
    ensures r.Some? ==> r.value < |s| && s[r.value] == c && c !in s[..r.value]
  {
    if s == [] then None
    else if s[0] == c then Some(0)
    else
      match IndexOf(s[1..], c)
      case None => None
      case Some(i) =>
        assert s[..i + 1] == [s[0]] + s[1..][..i];
        Some(i + 1)
  }

  /** Appending text after an occurrence of `c` does not move the first `c`. */
  lemma {:induction false} IndexOfPrefix(a: string, t: string, c: char)
    requires c in a
    ensures IndexOf(a + t, c) == IndexOf(a, c)
    decreases |a|
  {
    if a[0] != c {
      assert (a + t)[1..] == a[1..] + t;
      assert c in a[1..] by { assert a == [a[0]] + a[1..]; }
      IndexOfPrefix(a[1..], t, c);
    }
  }

  /** The first `c` after a prefix free of `c` is found right after that prefix. */
  lemma {:induction false} IndexOfAfter(p: string, c: char, rest: string)
    requires c !in p
    ensures IndexOf(p + [c] + rest, c) == Some(|p|)
    decreases |p|
  {
    if p != [] {
      assert (p + [c] + rest)[1..] == p[1..] + [c] + rest;
      IndexOfAfter(p[1..], c, rest);
    }
  }

  /** The last `c` before a suffix free of `c` is found right before that suffix. */
  lemma {:induction false} LastIndexOfBefore(p: string, c: char, rest: string)
    requires c !in rest
    ensures LastIndexOf(p + [c] + rest, c) == Some(|p|)
    decreases |rest|
  {
    var s := p + [c] + rest;
    if rest != [] {
      var init := rest[..|rest| - 1];
      assert s[..|s| - 1] == p + [c] + init;
      LastIndexOfBefore(p, c, init);
    }
  }

  /** `s.split(sep)` for a one-character separator: every piece between separators, empty ones included. */
  function Split(s: string, sep: char): (r: seq<string>)
    ensures |r| >= 1
    ensures forall i :: 0 <= i < |r| ==> sep !in r[i]
    decreases |s|
  {
    match IndexOf(s, sep)
    case None => [s]
    case Some(i) => [s[..i]] + Split(s[i + 1..], sep)
  }

  /** `parts.join(sep)`. */
  function Join(parts: seq<string>, sep: char): string
  {
    if |parts| == 0 then ""
    else if |parts| == 1 then parts[0]
    else parts[0] + [sep] + Join(parts[1..], sep)
  }

  /** Splitting then joining with the same separator gives back the original string. */
  lemma {:induction false} JoinSplit(s: string, sep: char)
    ensures Join(Split(s, sep), sep) == s
    decreases |s|
  {
    match IndexOf(s, sep)
    case None =>
    case Some(i) =>
      var tail := Split(s[i + 1..], sep);
      JoinSplit(s[i + 1..], sep);
      JoinCons(s[..i], tail, sep);
      AroundPosition(s, i);
  }

  /** Joining a piece in front of a non-empty list puts one separator after it. */
  lemma JoinCons(p: string, tail: seq<string>, sep: char)
    requires |tail| >= 1
    ensures Join([p] + tail, sep) == p + [sep] + Join(tail, sep)
  {
    assert ([p] + tail)[1..] == tail;
  }

  /** A string is its text before position `i`, the character there, and its text after. */
  lemma AroundPosition(s: string, i: nat)
    requires i < |s|
    ensures s == s[..i] + [s[i]] + s[i + 1..]
  {
  }

  /** A separator placed between `a` and `b` splits exactly there. */
  lemma {:induction false} SplitAppend(a: string, b: string, sep: char)
    ensures Split(a + [sep] + b, sep) == Split(a, sep) + Split(b, sep)
    decreases |a|
  {
    match IndexOf(a, sep)
    case None =>
      SplitAfterFree(a, b, sep);
      SplitNoSeparator(a, sep);
    case Some(i) =>
      var rest := a[i + 1..];
      calc {
        Split(a + [sep] + b, sep);
        == { SplitAtFirst(a, b, sep, i); }
        [a[..i]] + Split(rest + [sep] + b, sep);
        == { SplitAppend(rest, b, sep); }
        [a[..i]] + (Split(rest, sep) + Split(b, sep));
        ==
        ([a[..i]] + Split(rest, sep)) + Split(b, sep);
      }
  }

  /** Splitting at a first separator that lies inside `a`. */
  lemma SplitAtFirst(a: string, b: string, sep: char, i: nat)
    requires IndexOf(a, sep) == Some(i)
    ensures Split(a + [sep] + b, sep) == [a[..i]] + Split(a[i + 1..] + [sep] + b, sep)
  {
    var s := a + [sep] + b;
    AroundInner(a, b, sep, i);
    IndexOfPrefix(a, [sep] + b, sep);
  }

  /** The text on either side of position `i` inside `a`, once `[sep] + b` is appended. */
  lemma AroundInner(a: string, b: string, sep: char, i: nat)
    requires i < |a|
    ensures a + [sep] + b == a + ([sep] + b)
    ensures (a + [sep] + b)[..i] == a[..i]
    ensures (a + [sep] + b)[i + 1..] == a[i + 1..] + [sep] + b
  {
  }

  /** Splitting at a first separator that directly follows a separator-free `a`. */
  lemma SplitAfterFree(a: string, b: string, sep: char)
    requires sep !in a
    ensures Split(a + [sep] + b, sep) == [a] + Split(b, sep)
  {
    var s := a + [sep] + b;
    IndexOfAfter(a, sep, b);
    assert s[..|a|] == a;
    assert s[|a| + 1..] == b;
  }

  /** A string with `p` as a prefix also has every prefix of `p` as a prefix. */
  lemma StartsWithTransitive(s: string, p: string, q: string)
    requires StartsWith(s, p) && StartsWith(p, q)
    ensures StartsWith(s, q)
  {
    assert s[..|q|] == s[..|p|][..|q|];
  }

  /** A common prefix keeps one string a prefix of another. */
  lemma StartsWithAfterCommon(c: string, s: string, p: string)
    requires StartsWith(s, p)
    ensures StartsWith(c + s, c + p)
  {
    assert (c + s)[..|c + p|] == c + s[..|p|];
  }

  /** A common prefix can be dropped from both sides of a prefix test. */
  lemma StartsWithDropCommon(c: string, s: string, p: string)
    requires StartsWith(c + s, c + p)
    ensures StartsWith(s, p)
  {
    assert s[..|p|] == (c + s)[..|c + p|][|c|..];
  }

  /** A string without the separator is a single piece. */
  lemma SplitNoSeparator(s: string, sep: char)
    requires sep !in s
    ensures Split(s, sep) == [s]
  {
  }

  /** Two separator-free pieces around one separator split into exactly those pieces. */
  lemma SplitTwo(a: string, b: string, sep: char)
    requires sep !in a && sep !in b
    ensures Split(a + [sep] + b, sep) == [a, b]
  {
    SplitAppend(a, b, sep);
  }

  /** Joining pieces that do not contain the separator, then splitting, gives back the pieces. */
  lemma {:induction false} SplitJoin(parts: seq<string>, sep: char)
    requires |parts| >= 1
    requires forall i :: 0 <= i < |parts| ==> sep !in parts[i]
    ensures Split(Join(parts, sep), sep) == parts
    decreases |parts|
  {
    if |parts| > 1 {
      var p := parts[0];
      var tail := parts[1..];
      assert parts == [p] + tail;
      SplitJoin(tail, sep);
      JoinCons(p, tail, sep);
      SplitAppend(p, Join(tail, sep), sep);
      SplitNoSeparator(p, sep);
    }
  }

  /** Joining two non-empty lists of pieces puts one separator between them. */
  lemma {:induction false} JoinAppend(a: seq<string>, b: seq<string>, sep: char)
    requires |a| >= 1 && |b| >= 1
    ensures Join(a + b, sep) == Join(a, sep) + [sep] + Join(b, sep)
    decreases |a|
  {
    if |a| > 1 {
      assert (a + b)[1..] == a[1..] + b;
      JoinAppend(a[1..], b, sep);
    } else {
      assert (a + b)[1..] == b;
    }
  }
}
