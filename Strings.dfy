/**
 * String helpers shared by the engine: prefix and suffix tests, substring
 * search, single-character replacement, stripping, and the code-point order
 * that Python uses for `sorted` on strings, with a sorting method over sets.
 */
module Strings {

  predicate StartsWith(s: string, prefix: string) {
    |prefix| <= |s| && s[..|prefix|] == prefix
  }

  predicate EndsWith(s: string, suffix: string) {
    |suffix| <= |s| && s[|s| - |suffix|..] == suffix
  }

  /** A run of `n` stars. */
  function Stars(n: nat): (r: string)
    ensures |r| == n && forall i :: 0 <= i < n ==> r[i] == '*'
  {
    if n == 0 then "" else "*" + Stars(n - 1)
  }

  /** `t` occurs in `s` starting at index `i`. */
  predicate OccursAt(s: string, t: string, i: int) {
    0 <= i && i + |t| <= |s| && s[i..i + |t|] == t
  }

  /** Python's `t in s` for strings: substring search. */
  predicate IsSubstring(t: string, s: string)
    ensures IsSubstring(t, s) <==> exists i :: OccursAt(s, t, i)
    decreases |s|
  {
    if |t| > |s| then false
    else if s[..|t|] == t then assert OccursAt(s, t, 0); true
    else
      var r := IsSubstring(t, s[1..]);
      assert r ==> exists i :: OccursAt(s, t, i) by {
        if r {
          var i :| OccursAt(s[1..], t, i);
          assert s[i + 1..i + 1 + |t|] == s[1..][i..i + |t|];
          assert OccursAt(s, t, i + 1);
        }
      }
      assert (exists i :: OccursAt(s, t, i)) ==> r by {
        if exists i :: OccursAt(s, t, i) {
          var i :| OccursAt(s, t, i);
          assert i != 0;
          assert s[1..][i - 1..i - 1 + |t|] == s[i..i + |t|];
          assert OccursAt(s[1..], t, i - 1);
        }
      }
      r
  }

  /** An occurrence at `i > 0` in `s` is an occurrence at `i - 1` in `s[1..]`. */
  lemma OccursAtTail(s: string, t: string, i: int)
    requires 1 <= i && 1 <= |s|
    ensures OccursAt(s, t, i) <==> OccursAt(s[1..], t, i - 1)
  {
    if i + |t| <= |s| {
      assert s[i..i + |t|] == s[1..][i - 1..i - 1 + |t|];
    }
  }

  /** A concatenation starts with its first part. */
  lemma ConcatStartsWith(a: string, b: string)
    ensures StartsWith(a + b, a)
  {
    assert (a + b)[..|a|] == a;
  }

  /** A character in neither part is not in the concatenation. */
  lemma ConcatNoChar(a: string, b: string, ch: char)
    requires ch !in a && ch !in b
    ensures ch !in a + b
  {
  }

  /** Prefixing a suffix of `p` keeps the prefix at the head and adds no new character. */
  lemma PrefixedSuffix(pre: string, p: string, k: nat, ch: char)
    requires k <= |p| && ch !in p && ch !in pre
    ensures StartsWith(pre + p[k..], pre) && ch !in pre + p[k..]
  {
    SliceChars(p, k, |p|);
    ConcatStartsWith(pre, p[k..]);
  }

  /** Every character of a slice is a character of the string. */
  lemma SliceChars(s: string, i: nat, j: nat)
    requires i <= j <= |s|
    ensures forall ch :: ch in s[i..j] ==> ch in s
  {
    forall ch | ch in s[i..j] ensures ch in s {
      var k :| 0 <= k < j - i && s[i..j][k] == ch;
      assert s[i + k] == ch;
    }
  }

  /** Python's `s.replace(a, b)` for single characters. */
  function ReplaceChar(s: string, a: char, b: char): (r: string)
    ensures |r| == |s|
    ensures forall i :: 0 <= i < |s| ==> r[i] == (if s[i] == a then b else s[i])
  {
    seq(|s|, i requires 0 <= i < |s| => if s[i] == a then b else s[i])
  }

  /** Replacing `a` by another character leaves no `a`. */
  lemma ReplaceCharRemoves(s: string, a: char, b: char)
    requires a != b
    ensures a !in ReplaceChar(s, a, b)
  {
    var r := ReplaceChar(s, a, b);
    forall k | 0 <= k < |r| ensures r[k] != a {
    }
  }

  /** Replacing `a` by `b` brings in no character other than `b`. */
  lemma ReplaceCharNoChar(s: string, a: char, b: char, ch: char)
    requires ch !in s && ch != b
    ensures ch !in ReplaceChar(s, a, b)
  {
    var r := ReplaceChar(s, a, b);
    forall k | 0 <= k < |r| ensures r[k] != ch {
      assert s[k] in s;
    }
  }

  /** Replacing characters works piece by piece on a concatenation. */
  lemma ReplaceCharConcat(s: string, t: string, a: char, b: char)
    ensures ReplaceChar(s + t, a, b) == ReplaceChar(s, a, b) + ReplaceChar(t, a, b)
  {
    var l := ReplaceChar(s + t, a, b);
    var r := ReplaceChar(s, a, b) + ReplaceChar(t, a, b);
    forall k | 0 <= k < |l| ensures l[k] == r[k] {
      if k < |s| { assert (s + t)[k] == s[k]; } else { assert (s + t)[k] == t[k - |s|]; }
    }
  }

  /** ReplaceChar leaves no `a` behind when `a != b`, so a second pass changes nothing. */
  lemma ReplaceCharIdempotent(s: string, a: char, b: char)
    ensures ReplaceChar(ReplaceChar(s, a, b), a, b) == ReplaceChar(s, a, b)
  {
  }

  /** Python's `s.lstrip(c)`: drops every leading `c`. */
  function LStrip(s: string, c: char): (r: string)
    ensures |r| <= |s| && r == s[|s| - |r|..]
    ensures |r| > 0 ==> r[0] != c
    ensures forall i :: 0 <= i < |s| - |r| ==> s[i] == c
  {
    if |s| > 0 && s[0] == c then
      var t := LStrip(s[1..], c);
      assert s[|s| - |t|..] == s[1..][|s| - 1 - |t|..];
      assert forall i :: 0 <= i < |s| - |t| ==> s[i] == c by {
        forall i | 0 <= i < |s| - |t| ensures s[i] == c {
          if i > 0 { assert s[i] == s[1..][i - 1]; }
        }
      }
      t
    else s
  }

  /** Python's `s.rstrip(c)`: drops every trailing `c`. */
  function RStrip(s: string, c: char): (r: string)
    ensures |r| <= |s| && r == s[..|r|]
    ensures |r| > 0 ==> r[|r| - 1] != c
    ensures forall i :: |r| <= i < |s| ==> s[i] == c
  {
    if |s| > 0 && s[|s| - 1] == c then
      var t := RStrip(s[..|s| - 1], c);
      assert s[..|t|] == s[..|s| - 1][..|t|];
      assert forall i :: |t| <= i < |s| ==> s[i] == c by {
        forall i | |t| <= i < |s| ensures s[i] == c {
          if i < |s| - 1 { assert s[i] == s[..|s| - 1][i]; }
        }
      }
      t
    else s
  }

  /** Python's `s.rsplit("/", 1)[0]`: the text before the last `/`, or `s` itself. */
  function BeforeLastSlash(s: string): (r: string)
    ensures |r| <= |s| && r == s[..|r|]
    ensures '/' in s ==> |r| < |s| && s[|r|] == '/' && forall i :: |r| < i < |s| ==> s[i] != '/'
    ensures '/' !in s ==> r == s
  {
    if |s| == 0 then s
    else if s[|s| - 1] == '/' then s[..|s| - 1]
    else if '/' in s[..|s| - 1] then BeforeLastSlash(s[..|s| - 1])
    else (
      assert forall i :: 0 <= i < |s| ==> s[i] != '/' by {
        forall i | 0 <= i < |s| ensures s[i] != '/' {
          if i < |s| - 1 { assert s[i] == s[..|s| - 1][i]; }
        }
      }
      s)
  }

  // ---------------------------------------------------------------------
  // Code-point order on strings, as Python's `<` on `str`.
  // ---------------------------------------------------------------------

  predicate StrLess(a: string, b: string)
    decreases |a|
  {
    if |a| == 0 then |b| > 0
    else |b| > 0 && (a[0] < b[0] || (a[0] == b[0] && StrLess(a[1..], b[1..])))
  }

  lemma {:induction false} StrLessIrreflexive(a: string)
    ensures !StrLess(a, a)
    decreases |a|
  {
    if |a| > 0 { StrLessIrreflexive(a[1..]); }
  }

  lemma {:induction false} StrLessTransitive(a: string, b: string, c: string)
    requires StrLess(a, b) && StrLess(b, c)
    ensures StrLess(a, c)
    decreases |a|
  {
    if |a| > 0 && a[0] == b[0] && b[0] == c[0] {
      StrLessTransitive(a[1..], b[1..], c[1..]);
    }
  }

  lemma {:induction false} StrLessTotal(a: string, b: string)
    requires a != b
    ensures StrLess(a, b) || StrLess(b, a)
    decreases |a|
  {
    if |a| > 0 && |b| > 0 && a[0] == b[0] {
      assert a == [a[0]] + a[1..] && b == [b[0]] + b[1..];
      StrLessTotal(a[1..], b[1..]);
    }
  }

  lemma StrLessAsymmetric(a: string, b: string)
    requires StrLess(a, b)
    ensures !StrLess(b, a)
  {
    if StrLess(b, a) {
      StrLessTransitive(a, b, a);
      StrLessIrreflexive(a);
    }
  }

  /** Sorted ascending without repeats: the shape of Python's `sorted(some_set)`. */
  predicate StrictlySorted(s: seq<string>) {
    forall i, j :: 0 <= i < j < |s| ==> StrLess(s[i], s[j])
  }

  /** A strictly sorted list is determined by its elements: `sorted(set)` is deterministic. */
  lemma {:induction false} StrictlySortedUnique(x: seq<string>, y: seq<string>)
    requires StrictlySorted(x) && StrictlySorted(y)
    requires forall e :: e in x <==> e in y
    ensures x == y
    decreases |x|
  {
    assert |x| == 0 <==> |y| == 0 by {
      if |y| > 0 { assert y[0] in x; }
      if |x| > 0 { assert x[0] in y; }
    }
    if |x| > 0 {
      assert x[0] in x;
      assert |y| > 0;
      assert x[0] == y[0] by {
        if x[0] != y[0] {
          assert y[0] in x;
          var i :| 0 <= i < |x| && x[i] == y[0];
          var j :| 0 <= j < |y| && y[j] == x[0];
          assert i > 0 && j > 0;
          assert StrLess(x[0], x[i]) && StrLess(y[0], y[j]);
          StrLessAsymmetric(x[0], y[0]);
        }
      }
      forall e ensures e in x[1..] <==> e in y[1..] {
        if e in x[1..] {
          var i :| 1 <= i < |x| && x[i] == e;
          assert StrLess(x[0], e);
          StrLessIrreflexive(e);
          assert e != y[0];
          assert e in y;
        }
        if e in y[1..] {
          var j :| 1 <= j < |y| && y[j] == e;
          assert StrLess(y[0], e);
          StrLessIrreflexive(e);
          assert e != x[0];
          assert e in x;
        }
      }
      StrictlySortedUnique(x[1..], y[1..]);
      assert x == [x[0]] + x[1..] && y == [y[0]] + y[1..];
    }
  }

  /** The least element of a non-empty set of strings. */
  method MinOf(s: set<string>) returns (m: string)
    requires s != {}
    ensures m in s
    ensures forall x :: x in s && x != m ==> StrLess(m, x)
  {
    m :| m in s;
    var rest := s - {m};
    while rest != {}
      invariant rest <= s && m in s && m !in rest
      invariant forall x :: x in s && x !in rest && x != m ==> StrLess(m, x)
      decreases |rest|
    {
      var y :| y in rest;
      if StrLess(y, m) {
        forall x | x in s && x !in rest && x != y ensures StrLess(y, x) {
          if x != m { StrLessTransitive(y, m, x); }
        }
        m := y;
      } else {
        StrLessTotal(m, y);
      }
      rest := rest - {y};
    }
  }

  /** Python's `sorted(s)` for a set of strings. */
  method SortSet(s: set<string>) returns (r: seq<string>)
    ensures StrictlySorted(r)
    ensures forall x :: x in r <==> x in s
    ensures |r| == |s|
  {
    r := [];
    var rest := s;
    while rest != {}
      invariant rest <= s
      invariant StrictlySorted(r)
      invariant forall x :: x in s <==> x in r || x in rest
      invariant forall x :: x in r ==> x !in rest
      invariant forall x, y :: x in r && y in rest ==> StrLess(x, y)
      invariant |r| + |rest| == |s|
      decreases |rest|
    {
      var m := MinOf(rest);
      forall x | x in r ensures x != m { }
      r := r + [m];
      rest := rest - {m};
    }
  }

  /** `m` is the least element of `s`. */
  ghost predicate MinIn(s: set<string>, m: string) {
    m in s && forall x :: x in s && x != m ==> StrLess(m, x)
  }

  /** Every non-empty set of strings has a least element. */
  lemma {:induction false} MinExists(s: set<string>)
    requires s != {}
    ensures exists m :: MinIn(s, m)
    decreases |s|
  {
    var y :| y in s;
    if s == {y} {
      assert forall x :: x in s && x != y ==> StrLess(y, x);
      assert MinIn(s, y);
    } else {
      MinExists(s - {y});
      var m :| MinIn(s - {y}, m);
      if StrLess(y, m) {
        forall x | x in s && x != y ensures StrLess(y, x) {
          if x != m { StrLessTransitive(y, m, x); }
        }
        assert MinIn(s, y);
      } else {
        assert m != y;
        StrLessTotal(m, y);
        forall x | x in s && x != m ensures StrLess(m, x) {
          if x != y { assert x in s - {y}; }
        }
        assert MinIn(s, m);
      }
    }
  }

  /** The list `sorted(s)` as a value: the unique strictly sorted list of the elements of `s`. */
  ghost function SortedOf(s: set<string>): (r: seq<string>)
    ensures StrictlySorted(r)
    ensures forall x :: x in r <==> x in s
    decreases |s|
  {
    if s == {} then []
    else
      MinExists(s);
      var m :| MinIn(s, m);
      var rest := SortedOf(s - {m});
      assert forall j :: 0 <= j < |rest| ==> StrLess(m, rest[j]) by {
        forall j | 0 <= j < |rest| ensures StrLess(m, rest[j]) {
          assert rest[j] in s - {m};
        }
      }
      [m] + rest
  }
}
