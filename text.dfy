/** The handful of Python `str` operations the prompt generator relies on:
    `strip()`, `split(sep)`, `sep.join(parts)`, the substring test `sub in s`,
    `lower()` (ASCII letters only) and `replace('"', '\\"')`. */
module Text {

  /** The characters Python's `str.strip()` removes (those `str.isspace()` accepts). */
  predicate IsSpace(c: char) {
    || c == ' '
    || ('\t' <= c <= '\r')
    || ('\U{1c}' <= c <= '\U{1f}')
    || c == '\U{85}' || c == '\U{a0}' || c == '\U{1680}'
    || ('\U{2000}' <= c <= '\U{200a}')
    || c == '\U{2028}' || c == '\U{2029}' || c == '\U{202f}' || c == '\U{205f}' || c == '\U{3000}'
  }

  /** No whitespace at either end: what `strip()` leaves unchanged. */
  predicate IsStripped(s: string) {
    s == [] || (!IsSpace(s[0]) && !IsSpace(s[|s| - 1]))
  }

  function StripStart(s: string): (r: string)
    ensures |r| <= |s| && r == s[|s| - |r|..]
    ensures forall k :: 0 <= k < |s| - |r| ==> IsSpace(s[k])
    ensures r == [] || !IsSpace(r[0])
    decreases |s|
  {
    if s != [] && IsSpace(s[0]) then StripStart(s[1..]) else s
  }

  function StripEnd(s: string): (r: string)
    ensures |r| <= |s| && r == s[..|r|]
    ensures forall k :: |r| <= k < |s| ==> IsSpace(s[k])
    ensures r == [] || !IsSpace(r[|r| - 1])
    decreases |s|
  {
    if s != [] && IsSpace(s[|s| - 1]) then StripEnd(s[..|s| - 1]) else s
  }

  /** `s` is `r` with only whitespace before position `a` and after it. */
  predicate StrippedAt(s: string, r: string, a: nat) {
    && a + |r| <= |s| && r == s[a..a + |r|]
    && (forall k :: 0 <= k < a ==> IsSpace(s[k]))
    && (forall k :: a + |r| <= k < |s| ==> IsSpace(s[k]))
  }

  /** A slice of a suffix is a slice of the whole. */
  lemma SliceOfSuffix<T>(s: seq<T>, a: nat, n: nat)
    requires a + n <= |s|
    ensures s[a..][..n] == s[a..a + n]
  {
  }

  /** A suffix `t` of `s` without leading whitespace, cut to a prefix `r`
      without trailing whitespace, is a stripped slice of `s` with only
      whitespace around it, and is `s` itself when `s` is stripped already. */
  lemma {:induction false} StripShape(s: string, t: string, r: string)
    requires |t| <= |s| && t == s[|s| - |t|..]
    requires forall k :: 0 <= k < |s| - |t| ==> IsSpace(s[k])
    requires t == [] || !IsSpace(t[0])
    requires |r| <= |t| && r == t[..|r|]
    requires forall k :: |r| <= k < |t| ==> IsSpace(t[k])
    requires r == [] || !IsSpace(r[|r| - 1])
    ensures IsStripped(r)
    ensures StrippedAt(s, r, |s| - |t|)
    ensures IsStripped(s) ==> r == s
  {
    var a := |s| - |t|;
    SliceOfSuffix(s, a, |r|);
    forall k | a + |r| <= k < |s| ensures IsSpace(s[k]) {
      assert s[k] == t[k - a];
    }
    if r != [] {
      assert r[0] == t[0];
    }
    if IsStripped(s) && s != [] {
      assert a == 0;
      assert |r| == |s| by {
        assert s[|s| - 1] == t[|s| - 1];
      }
    }
  }

  /** `s.strip()`: the slice of `s` left after dropping whitespace at both ends. */
  function Strip(s: string): (r: string)
    ensures IsStripped(r)
    ensures exists a: nat :: StrippedAt(s, r, a)
    ensures IsStripped(s) ==> r == s
    ensures |r| <= |s|
  {
    var t := StripStart(s);
    var r := StripEnd(t);
    StripShape(s, t, r);
    r
  }

  /** Two first non-spaces of `s` are the same position. */
  lemma SameStart(s: string, a: nat, b: nat)
    requires a < |s| && b < |s| && !IsSpace(s[a]) && !IsSpace(s[b])
    requires forall k :: 0 <= k < a ==> IsSpace(s[k])
    requires forall k :: 0 <= k < b ==> IsSpace(s[k])
    ensures a == b
  {
  }

  /** Two ends of `s` after which only whitespace follows, each preceded by a
      non-space, are the same position. */
  lemma SameEnd(s: string, e: nat, f: nat)
    requires 0 < e <= |s| && 0 < f <= |s| && !IsSpace(s[e - 1]) && !IsSpace(s[f - 1])
    requires forall k :: e <= k < |s| ==> IsSpace(s[k])
    requires forall k :: f <= k < |s| ==> IsSpace(s[k])
    ensures e == f
  {
  }

  /** `strip()` has only one possible result: any stripped slice of `s` with
      nothing but whitespace around it is `Strip(s)`. */
  lemma {:induction false} StripUnique(s: string, r: string, a: nat)
    requires IsStripped(r) && StrippedAt(s, r, a)
    ensures Strip(s) == r
  {
    var q := Strip(s);
    var b: nat :| StrippedAt(s, q, b);
    if r != [] && q != [] {
      assert s[a] == r[0] && s[a + |r| - 1] == r[|r| - 1] by {
        assert r == s[a..a + |r|];
      }
      assert s[b] == q[0] && s[b + |q| - 1] == q[|q| - 1] by {
        assert q == s[b..b + |q|];
      }
      SameStart(s, a, b);
      SameEnd(s, a + |r|, b + |q|);
    }
  }

  /** `[p.strip() for p in parts]` */
  function StripAll(parts: seq<string>): (r: seq<string>)
    ensures |r| == |parts|
    ensures forall i :: 0 <= i < |r| ==> r[i] == Strip(parts[i])
  {
    seq(|parts|, i requires 0 <= i < |parts| => Strip(parts[i]))
  }

  /** `sep.join(parts)` */
  function Join(sep: string, parts: seq<string>): string
    decreases |parts|
  {
    if |parts| == 0 then []
    else if |parts| == 1 then parts[0]
    else parts[0] + sep + Join(sep, parts[1..])
  }

  function IndexOf(s: string, c: char): (i: nat)
    requires c in s
    ensures i < |s| && s[i] == c && c !in s[..i]
  {
    if s[0] == c then 0
    else
      var j := IndexOf(s[1..], c);
      assert s[..j + 1] == [s[0]] + s[1..][..j];
      j + 1
  }

  /** `s.split(sep)` for a one-character separator: never empty, no piece
      holds the separator, and joining the pieces back gives `s`. */
  function Split(s: string, sep: char): (r: seq<string>)
    ensures |r| >= 1
    ensures forall i :: 0 <= i < |r| ==> sep !in r[i]
    ensures Join([sep], r) == s
    decreases |s|
  {
    if sep !in s then [s]
    else
      var i := IndexOf(s, sep);
      var rest := Split(s[i + 1..], sep);
      var r := [s[..i]] + rest;
      assert r[1..] == rest;
      assert s == s[..i] + [sep] + s[i + 1..];
      r
  }

  lemma {:induction false} IndexOfAfter(a: string, c: char, b: string)
    requires c !in a
    ensures c in a + [c] + b && IndexOf(a + [c] + b, c) == |a|
    decreases |a|
  {
    var s := a + [c] + b;
    assert s[|a|] == c;
    if a != [] {
      assert s[1..] == a[1..] + [c] + b;
      IndexOfAfter(a[1..], c, b);
    }
  }

  /** Splitting is the inverse of joining pieces that do not hold the separator. */
  lemma {:induction false} SplitJoin(parts: seq<string>, sep: char)
    requires |parts| >= 1
    requires forall i :: 0 <= i < |parts| ==> sep !in parts[i]
    ensures Split(Join([sep], parts), sep) == parts
    decreases |parts|
  {
    if |parts| > 1 {
      var head, tail := parts[0], Join([sep], parts[1..]);
      var s := head + [sep] + tail;
      assert Join([sep], parts) == s;
      IndexOfAfter(head, sep, tail);
      assert s[..|head|] == head;
      assert s[|head| + 1..] == tail;
      assert Split(s, sep) == [head] + Split(tail, sep);
      SplitJoin(parts[1..], sep);
      assert parts == [head] + parts[1..];
    }
  }

  /** A character other than the separator is in the joined text only if
      some piece holds it. */
  lemma {:induction false} JoinLacks(sep: char, parts: seq<string>, c: char)
    requires c != sep && forall i :: 0 <= i < |parts| ==> c !in parts[i]
    ensures c !in Join([sep], parts)
    decreases |parts|
  {
    if |parts| > 1 {
      JoinLacks(sep, parts[1..], c);
    }
  }

  /** Two or more pieces: the separator shows up in the joined text. */
  lemma {:induction false} JoinHasSep(sep: char, parts: seq<string>)
    requires |parts| >= 2
    ensures sep in Join([sep], parts)
  {
    assert Join([sep], parts)[|parts[0]|] == sep;
  }

  /** Non-empty pieces joined: the text starts with the first piece's first
      character and ends with the last piece's last character. */
  lemma {:induction false} JoinEnds(sep: char, parts: seq<string>)
    requires |parts| >= 1 && forall i :: 0 <= i < |parts| ==> parts[i] != []
    ensures var j := Join([sep], parts);
      var last := parts[|parts| - 1];
      j != [] && j[0] == parts[0][0] && j[|j| - 1] == last[|last| - 1]
    decreases |parts|
  {
    if |parts| > 1 {
      JoinEnds(sep, parts[1..]);
    }
  }

  /** Pieces already stripped come back unchanged from `strip()`. */
  lemma {:induction false} StripAllStripped(parts: seq<string>)
    requires forall i :: 0 <= i < |parts| ==> IsStripped(parts[i])
    ensures StripAll(parts) == parts
  {
  }

  /** `sub in s`: some suffix of `s` starts with `sub`. */
  predicate Contains(s: string, sub: string) {
    exists i :: 0 <= i <= |s| && sub <= s[i..]
  }

  lemma {:induction false} ContainsAt(s: string, sub: string, i: nat)
    requires i <= |s| && sub <= s[i..]
    ensures Contains(s, sub)
  {
  }

  lemma {:induction false} ContainsIndex(s: string, sub: string) returns (i: nat)
    requires Contains(s, sub)
    ensures i <= |s| && sub <= s[i..]
  {
    i :| 0 <= i <= |s| && sub <= s[i..];
  }

  lemma {:induction false} ContainsTransitive(a: string, b: string, c: string)
    requires Contains(a, b) && Contains(b, c)
    ensures Contains(a, c)
  {
    var i := ContainsIndex(a, b);
    var j := ContainsIndex(b, c);
    assert c <= a[i + j..] by {
      forall k | 0 <= k < |c| ensures c[k] == a[i + j + k] {
        assert c[k] == b[j + k];
      }
    }
    ContainsAt(a, c, i + j);
  }

  lemma {:induction false} ContainsLeft(a: string, b: string, sub: string)
    requires Contains(a, sub)
    ensures Contains(a + b, sub)
  {
    var i := ContainsIndex(a, sub);
    assert sub <= (a + b)[i..] by {
      forall k | 0 <= k < |sub| ensures sub[k] == (a + b)[i + k] { }
    }
    ContainsAt(a + b, sub, i);
  }

  lemma {:induction false} ContainsRight(a: string, b: string, sub: string)
    requires Contains(b, sub)
    ensures Contains(a + b, sub)
  {
    var i := ContainsIndex(b, sub);
    assert (a + b)[|a| + i..] == b[i..];
    ContainsAt(a + b, sub, |a| + i);
  }

  lemma {:induction false} ContainsSelf(s: string)
    ensures Contains(s, s)
  {
    ContainsAt(s, s, 0);
  }

  function LowerChar(c: char): char {
    if 'A' <= c <= 'Z' then (c as int + 32) as char else c
  }

  /** `s.lower()`, for the ASCII letters. */
  function Lower(s: string): (r: string)
    ensures |r| == |s|
    ensures forall i :: 0 <= i < |s| ==> r[i] == LowerChar(s[i])
  {
    seq(|s|, i requires 0 <= i < |s| => LowerChar(s[i]))
  }

  /** No capital letter survives `lower()`. */
  lemma {:induction false} LowerHasNoCapital(s: string)
    ensures forall i :: 0 <= i < |Lower(s)| ==> !('A' <= Lower(s)[i] <= 'Z')
  {
  }

  /** Lower-casing twice is lower-casing once. */
  lemma {:induction false} LowerIdempotent(s: string)
    ensures Lower(Lower(s)) == Lower(s)
  {
    LowerHasNoCapital(s);
  }

  /** Lower-casing changes letters only: every other character stays. */
  lemma {:induction false} LowerKeepsOthers(s: string, i: nat)
    requires i < |s| && !('A' <= s[i] <= 'Z')
    ensures Lower(s)[i] == s[i]
  {
  }

  /** Lower-casing keeps every occurrence of a substring. */
  lemma {:induction false} LowerContains(s: string, sub: string)
    requires Contains(s, sub)
    ensures Contains(Lower(s), Lower(sub))
  {
    var i := ContainsIndex(s, sub);
    assert Lower(sub) <= Lower(s)[i..] by {
      forall k | 0 <= k < |sub| ensures Lower(sub)[k] == Lower(s)[i + k] {
        assert sub[k] == s[i + k];
      }
    }
    ContainsAt(Lower(s), Lower(sub), i);
  }

  /** `s.replace('"', '\\"')`: every double quote gets a backslash in front. */
  function EscapeQuotes(s: string): (r: string)
    ensures r == [] || r[0] != '"'
    ensures forall i :: 0 <= i < |r| && r[i] == '"' ==> 0 < i && r[i - 1] == '\\'
    ensures |r| >= |s|
    decreases |s|
  {
    if s == [] then []
    else (if s[0] == '"' then ['\\', '"'] else [s[0]]) + EscapeQuotes(s[1..])
  }

  /** Turns each `\"` back into `"`; everything else is kept. */
  function UnescapeQuotes(s: string): string
    decreases |s|
  {
    if |s| >= 2 && s[0] == '\\' && s[1] == '"' then ['"'] + UnescapeQuotes(s[2..])
    else if s == [] then []
    else [s[0]] + UnescapeQuotes(s[1..])
  }

  lemma {:induction false} UnescapeEscape(s: string)
    ensures UnescapeQuotes(EscapeQuotes(s)) == s
    decreases |s|
  {
    if s != [] {
      var e := EscapeQuotes(s[1..]);
      UnescapeEscape(s[1..]);
      if s[0] == '"' {
        assert (['\\', '"'] + e)[2..] == e;
      } else {
        assert ([s[0]] + e)[1..] == e;
      }
      assert s == [s[0]] + s[1..];
    }
  }

  /** No value occurs twice. */
  predicate Distinct<T(==)>(s: seq<T>) {
    forall i, j :: 0 <= i < j < |s| ==> s[i] != s[j]
  }
}
