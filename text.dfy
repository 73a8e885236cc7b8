/**
 * The few pieces of Python's `str` behaviour the pipeline relies on:
 * `strip`, `lstrip(chars)`, `split(sep)`, `sep.join(parts)`, slicing and
 * `lower`, stated on `seq<char>`. A Python string element is one code
 * point and a `char` one Unicode scalar value, so strings holding a lone
 * surrogate are not modelled.
 */
module Text {

  /** Python's `str.isspace` on one code point. */
  predicate IsSpace(c: char)
  {
    ('\t' <= c <= '\r') || ('\U{1C}' <= c <= '\U{1F}') || c == ' '
    || c == '\U{85}' || c == '\U{A0}' || c == '\U{1680}'
    || ('\U{2000}' <= c <= '\U{200A}') || c == '\U{2028}' || c == '\U{2029}'
    || c == '\U{202F}' || c == '\U{205F}' || c == '\U{3000}'
  }

  /** `str.isdigit` restricted to the ASCII digits. */
  predicate IsDigit(c: char)
  {
    '0' <= c <= '9'
  }

  /** A string with no whitespace at either end: what `strip()` returns. */
  predicate Stripped(s: string)
  {
    s == [] || (!IsSpace(s[0]) && !IsSpace(s[|s| - 1]))
  }

  /** `s.lstrip(chars)`: drops the longest prefix whose characters all satisfy `drop`. */
  function TrimLeft(s: string, drop: char -> bool): (r: string)
    ensures |r| <= |s|
    decreases |s|
  {
    if s != [] && drop(s[0]) then TrimLeft(s[1..], drop) else s
  }

  /** What `lstrip` leaves is a suffix of `s`, what it took off was all `drop`, and it stops at a kept character. */
  lemma {:induction false} TrimLeftSpec(s: string, drop: char -> bool)
    ensures var r := TrimLeft(s, drop);
            r == s[|s| - |r|..]
            && (forall i :: 0 <= i < |s| - |r| ==> drop(s[i]))
            && (r == [] || !drop(r[0]))
    decreases |s|
  {
    if s != [] && drop(s[0]) {
      TrimLeftSpec(s[1..], drop);
    }
  }

  /** `s.rstrip(chars)`: drops the longest suffix whose characters all satisfy `drop`. */
  function TrimRight(s: string, drop: char -> bool): (r: string)
    ensures |r| <= |s|
    decreases |s|
  {
    if s != [] && drop(s[|s| - 1]) then TrimRight(s[..|s| - 1], drop) else s
  }

  /** What `rstrip` leaves is a prefix of `s`, what it took off was all `drop`, and it stops at a kept character. */
  lemma {:induction false} TrimRightSpec(s: string, drop: char -> bool)
    ensures var r := TrimRight(s, drop);
            r == s[..|r|]
            && (forall i :: |r| <= i < |s| ==> drop(s[i]))
            && (r == [] || !drop(r[|r| - 1]))
    decreases |s|
  {
    if s != [] && drop(s[|s| - 1]) {
      TrimRightSpec(s[..|s| - 1], drop);
    }
  }

  /** `s.strip()`: takes whitespace off both ends. */
  function Strip(s: string): (r: string)
    ensures Stripped(r)
    ensures |r| <= |s|
  {
    var left := TrimLeft(s, IsSpace);
    TrimLeftSpec(s, IsSpace);
    TrimRightSpec(left, IsSpace);
    var r := TrimRight(left, IsSpace);
    assert r != [] ==> r[0] == left[0];
    r
  }

  /** `strip` leaves the middle part of `s`, around which everything is whitespace. */
  lemma StripSpec(s: string)
    ensures exists i :: StrippedAt(s, Strip(s), i)
  {
    var left := TrimLeft(s, IsSpace);
    TrimLeftSpec(s, IsSpace);
    TrimRightSpec(left, IsSpace);
    var r := Strip(s);
    var i := |s| - |left|;
    assert r == s[i..i + |r|];
    assert StrippedAt(s, r, i);
  }

  /** `r` sits at index `i` of `s`, and everything of `s` around it is whitespace. */
  predicate StrippedAt(s: string, r: string, i: int)
  {
    OccursAt(r, s, i)
    && (forall k :: 0 <= k < i ==> IsSpace(s[k]))
    && (forall k :: i + |r| <= k < |s| ==> IsSpace(s[k]))
  }

  /** Stripping a string that has no whitespace at its ends changes nothing. */
  lemma StripStripped(s: string)
    requires Stripped(s)
    ensures Strip(s) == s
  {
  }

  /** `not s.strip()` holds exactly when every character of `s` is whitespace. */
  lemma StripEmptyIff(s: string)
    ensures Strip(s) == "" <==> forall k :: 0 <= k < |s| ==> IsSpace(s[k])
  {
    var r := Strip(s);
    StripSpec(s);
    var i :| StrippedAt(s, r, i);
    if r != "" {
      assert r[0] == s[i];
    }
  }

  /** The index of the first `c` in `s` (what `s.split(c, 1)` cuts at). */
  function FirstIndex(s: string, c: char): (i: nat)
    requires c in s
    ensures i < |s| && s[i] == c
    ensures forall k :: 0 <= k < i ==> s[k] != c
    decreases |s|
  {
    if s[0] == c then 0 else 1 + FirstIndex(s[1..], c)
  }

  /** The index of the last `c` in `s`, or -1 when there is none (`str.rfind`). */
  function LastIndex(s: string, c: char): (i: int)
    ensures -1 <= i < |s|
    ensures i >= 0 ==> s[i] == c
    ensures forall k :: i < k < |s| ==> s[k] != c
    decreases |s|
  {
    if s == [] then -1
    else if s[|s| - 1] == c then |s| - 1
    else LastIndex(s[..|s| - 1], c)
  }

  /** `rfind` is determined by its contract: any index with those properties is the one returned. */
  lemma LastIndexUnique(s: string, c: char, i: int)
    requires i == -1 || (0 <= i < |s| && s[i] == c)
    requires forall k :: i < k < |s| ==> s[k] != c
    ensures LastIndex(s, c) == i
  {
  }

  /** `s.split(d)` for a one-character separator `d`: always at least one part, none containing `d`. */
  function Split(s: string, d: char): (parts: seq<string>)
    ensures |parts| >= 1
    decreases |s|
  {
    if s == [] then [""]
    else
      var rest := Split(s[1..], d);
      if s[0] == d then [""] + rest
      else [[s[0]] + rest[0]] + rest[1..]
  }

  /** No part of a split contains the separator. */
  lemma {:induction false} SplitParts(s: string, d: char)
    ensures forall k :: 0 <= k < |Split(s, d)| ==> d !in Split(s, d)[k]
    decreases |s|
  {
    if s != [] {
      SplitParts(s[1..], d);
    }
  }

  /** `sep.join(parts)`. */
  function Join(sep: string, parts: seq<string>): string
  {
    if |parts| == 0 then ""
    else if |parts| == 1 then parts[0]
    else parts[0] + sep + Join(sep, parts[1..])
  }

  /** Joining what `split` produced with the same separator gives the original string back. */
  lemma {:induction false} JoinSplit(s: string, d: char)
    ensures Join([d], Split(s, d)) == s
    decreases |s|
  {
    if s != [] {
      var rest := Split(s[1..], d);
      JoinSplit(s[1..], d);
      if s[0] == d {
        assert Split(s, d) == [""] + rest;
        assert ([""] + rest)[1..] == rest;
      } else {
        var parts := [[s[0]] + rest[0]] + rest[1..];
        assert Split(s, d) == parts;
        if |rest| == 1 {
          assert Join([d], parts) == [s[0]] + rest[0];
        } else {
          assert parts[1..] == rest[1..];
          assert Join([d], rest) == rest[0] + [d] + Join([d], rest[1..]);
        }
      }
    }
  }

  /** A part without the separator, followed by the separator, splits off as one element. */
  lemma {:induction false} SplitCons(p: string, d: char, t: string)
    requires d !in p
    ensures Split(p + [d] + t, d) == [p] + Split(t, d)
    decreases |p|
  {
    if p == [] {
      assert p + [d] + t == [d] + t;
      assert ([d] + t)[1..] == t;
    } else {
      var s := p + [d] + t;
      assert s[1..] == p[1..] + [d] + t;
      SplitCons(p[1..], d, t);
      assert [s[0]] + p[1..] == p;
    }
  }

  /** A string without the separator is its own single part. */
  lemma {:induction false} SplitNone(p: string, d: char)
    requires d !in p
    ensures Split(p, d) == [p]
    decreases |p|
  {
    if p != [] {
      SplitNone(p[1..], d);
      assert [p[0]] + p[1..] == p;
    }
  }

  /** Splitting a join of separator-free parts recovers the parts. */
  lemma {:induction false} SplitJoin(parts: seq<string>, d: char)
    requires |parts| >= 1
    requires forall k :: 0 <= k < |parts| ==> d !in parts[k]
    ensures Split(Join([d], parts), d) == parts
  {
    if |parts| == 1 {
      SplitNone(parts[0], d);
    } else {
      SplitJoin(parts[1..], d);
      assert Join([d], parts) == parts[0] + [d] + Join([d], parts[1..]);
      SplitCons(parts[0], d, Join([d], parts[1..]));
      assert [parts[0]] + parts[1..] == parts;
    }
  }

  /** `t in s` for strings: `t` occurs somewhere in `s` as a contiguous part. */
  predicate Occurs(t: string, s: string)
  {
    exists i | 0 <= i <= |s| - |t| :: OccursAt(t, s, i)
  }

  /** `t` occurs in `s` starting at index `i`. */
  predicate OccursAt(t: string, s: string, i: int)
  {
    0 <= i <= |s| - |t| && s[i..i + |t|] == t
  }

  /** `s` occurs in the concatenation `a + s + b`. */
  lemma OccursIn(a: string, s: string, b: string)
    ensures Occurs(s, a + s + b)
  {
    var w := a + s + b;
    assert OccursAt(s, w, |a|);
  }

  /** Occurrence is transitive. */
  lemma OccursTrans(t: string, s: string, u: string)
    requires Occurs(t, s) && Occurs(s, u)
    ensures Occurs(t, u)
  {
    var i :| 0 <= i <= |s| - |t| && OccursAt(t, s, i);
    var j :| 0 <= j <= |u| - |s| && OccursAt(s, u, j);
    forall k | 0 <= k < |t| ensures u[j + i + k] == t[k] {
      assert t[k] == s[i..i + |t|][k] == s[i + k];
      assert s[i + k] == u[j..j + |s|][i + k];
    }
    assert u[j + i..j + i + |t|] == t;
    assert OccursAt(t, u, j + i);
  }

  /** Every part occurs in the joined string. */
  lemma {:induction false} OccursInJoin(sep: string, parts: seq<string>, k: nat)
    requires k < |parts|
    ensures Occurs(parts[k], Join(sep, parts))
  {
    if |parts| == 1 {
      OccursIn("", parts[0], "");
      assert "" + parts[0] + "" == parts[0];
    } else if k == 0 {
      OccursIn("", parts[0], sep + Join(sep, parts[1..]));
      assert "" + parts[0] + (sep + Join(sep, parts[1..])) == Join(sep, parts);
    } else {
      OccursInJoin(sep, parts[1..], k - 1);
      OccursIn(parts[0] + sep, Join(sep, parts[1..]), "");
      assert parts[0] + sep + Join(sep, parts[1..]) + "" == Join(sep, parts);
      OccursTrans(parts[k], Join(sep, parts[1..]), Join(sep, parts));
    }
  }

  /** The ASCII part of Python's `str.lower` on one character. */
  function LowerChar(c: char): char
  {
    if 'A' <= c <= 'Z' then (c as int + 32) as char else c
  }

  /** Lowering never turns a character into, or out of, a character that is not an upper-case letter. */
  lemma LowerCharFixes(c: char, d: char)
    requires !('A' <= d <= 'Z')
    ensures LowerChar(c) == d <==> c == d || (d as int - 32 == c as int && 'A' <= c <= 'Z')
  {
  }

  /** `s.lower()` on the ASCII letters; every other character is kept. */
  function Lower(s: string): (r: string)
    ensures |r| == |s|
    ensures forall k :: 0 <= k < |s| ==> r[k] == LowerChar(s[k])
  {
    seq(|s|, k requires 0 <= k < |s| => LowerChar(s[k]))
  }

  /** Lowering works character by character from the front. */
  lemma LowerCons(c: char, s: string)
    ensures Lower([c] + s) == [LowerChar(c)] + Lower(s)
  {
  }

  /** Two strings with the same first character are equal exactly when their rests are. */
  lemma ConsEqual(c: char, a: string, b: string)
    ensures [c] + a == [c] + b <==> a == b
  {
    if [c] + a == [c] + b {
      assert a == ([c] + a)[1..];
    }
  }

  /** Lowering twice is lowering once. */
  lemma LowerIdempotent(s: string)
    ensures Lower(Lower(s)) == Lower(s)
  {
  }

  /** Lowering commutes with taking a suffix. */
  lemma LowerSuffix(s: string, i: nat)
    requires i <= |s|
    ensures Lower(s)[i..] == Lower(s[i..])
  {
  }

  /** A stretch of `s` holds a character other than '.' (or '/') exactly when its lowering does. */
  lemma LowerKeepsOther(s: string, c: char, lo: int, hi: int)
    requires c == '.' || c == '/'
    requires -1 <= lo && hi <= |s|
    ensures (exists k | lo < k < hi :: Lower(s)[k] != c) <==> (exists k | lo < k < hi :: s[k] != c)
  {
    if exists k | lo < k < hi :: s[k] != c {
      var k :| lo < k < hi && s[k] != c;
      LowerCharFixes(s[k], c);
      assert Lower(s)[k] != c;
    }
    if exists k | lo < k < hi :: Lower(s)[k] != c {
      var k :| lo < k < hi && Lower(s)[k] != c;
      LowerCharFixes(s[k], c);
      assert s[k] != c;
    }
  }

  /** Lowering keeps the position of the last '.' and of the last '/'. */
  lemma LastIndexLower(s: string, c: char)
    requires c == '.' || c == '/'
    ensures LastIndex(Lower(s), c) == LastIndex(s, c)
  {
    var i := LastIndex(s, c);
    forall k | i < k < |s| ensures Lower(s)[k] != c {
      LowerCharFixes(s[k], c);
    }
    LastIndexUnique(Lower(s), c, i);
  }
}
