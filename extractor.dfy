/** `extract_characters_from_prompt`, which both image scripts use to choose
    the reference pictures for a prompt (test.py:125-136,
    test_backup.py:96-107). It collects, in table order, every character key
    that occurs in the prompt as written. If the lower-cased prompt contains
    one of the words of `Keywords`, it returns every key instead. */
module Extractor {
  import opened Text

  /** The words that ask for the whole cast. */
  const Keywords: seq<string> := ["all", "five", "everyone", "together"]

  /** Some keyword occurs in the lower-cased prompt, anywhere, even inside another word. */
  predicate MentionsAll(prompt: string) {
    exists k :: 0 <= k < |Keywords| && Contains(Lower(prompt), Keywords[k])
  }

  /** The keys that occur in the prompt (case-sensitive), in table order. */
  function Matches(refs: seq<string>, prompt: string): seq<string>
    decreases |refs|
  {
    if refs == [] then []
    else
      var last := refs[|refs| - 1];
      Matches(refs[..|refs| - 1], prompt) + (if Contains(prompt, last) then [last] else [])
  }

  /** What the extractor returns. */
  function Extracted(refs: seq<string>, prompt: string): seq<string> {
    if MentionsAll(prompt) then refs else Matches(refs, prompt)
  }

  /** `a` is `b` with some elements left out, the others in their order. */
  predicate Subsequence<T(==)>(a: seq<T>, b: seq<T>)
    decreases |b|
  {
    if a == [] then true
    else if b == [] then false
    else
      || (a[|a| - 1] == b[|b| - 1] && Subsequence(a[..|a| - 1], b[..|b| - 1]))
      || Subsequence(a, b[..|b| - 1])
  }

  /** The extractor's two loops: the table scan, then the keyword test. */
  method ExtractCharacters(refs: seq<string>, prompt: string) returns (found: seq<string>)
    ensures found == Extracted(refs, prompt)
  {
    found := [];
    for i := 0 to |refs|
      invariant found == Matches(refs[..i], prompt)
    {
      assert refs[..i + 1][..i] == refs[..i];
      if Contains(prompt, refs[i]) {
        found := found + [refs[i]];
      }
    }
    assert refs[..|refs|] == refs;
    var lowered := Lower(prompt);
    var mentioned := false;
    for k := 0 to |Keywords|
      invariant mentioned <==> exists j :: 0 <= j < k && Contains(lowered, Keywords[j])
    {
      if Contains(lowered, Keywords[k]) {
        mentioned := true;
      }
    }
    if mentioned {
      found := refs;
    }
  }

  // ------------------------------------------------------------ subsequences

  /** Every element of a subsequence is an element of the whole. */
  lemma {:induction false} SubsequenceIn<T>(a: seq<T>, b: seq<T>, x: T)
    ensures Subsequence(a, b) && x in a ==> x in b
    decreases |b|
  {
    if Subsequence(a, b) && x in a {
      if a[|a| - 1] == b[|b| - 1] && Subsequence(a[..|a| - 1], b[..|b| - 1]) {
        assert a == a[..|a| - 1] + [a[|a| - 1]];
        SubsequenceIn(a[..|a| - 1], b[..|b| - 1], x);
      } else {
        SubsequenceIn(a, b[..|b| - 1], x);
      }
    }
  }

  lemma {:induction false} DistinctLast<T>(b: seq<T>)
    requires Distinct(b) && b != []
    ensures b[|b| - 1] !in b[..|b| - 1]
  {
  }

  /** When the last element of a distinct `b` is kept, it is the last of `a`. */
  lemma {:induction false} SubsequenceLast<T>(a: seq<T>, b: seq<T>)
    requires Subsequence(a, b) && Distinct(b) && b != [] && b[|b| - 1] in a
    ensures a != [] && a[|a| - 1] == b[|b| - 1] && Subsequence(a[..|a| - 1], b[..|b| - 1])
  {
    DistinctLast(b);
    SubsequenceIn(a, b[..|b| - 1], b[|b| - 1]);
  }

  lemma {:induction false} SubsequenceSkip<T>(a: seq<T>, b: seq<T>)
    requires Subsequence(a, b) && b != [] && b[|b| - 1] !in a
    ensures Subsequence(a, b[..|b| - 1])
  {
    if a != [] {
      assert a[|a| - 1] in a;
    }
  }

  lemma {:induction false} DistinctPrefix<T>(b: seq<T>, n: nat)
    requires Distinct(b) && n <= |b|
    ensures Distinct(b[..n])
  {
  }

  /** A subsequence of a distinct sequence is fixed by the elements it keeps. */
  lemma {:induction false} SubsequenceUnique<T>(a1: seq<T>, a2: seq<T>, b: seq<T>)
    requires Distinct(b) && Subsequence(a1, b) && Subsequence(a2, b)
    requires forall x :: x in a1 <==> x in a2
    ensures a1 == a2
    decreases |b|
  {
    if b != [] {
      var z, rest := b[|b| - 1], b[..|b| - 1];
      DistinctPrefix(b, |b| - 1);
      if z in a1 {
        SubsequenceLast(a1, b);
        SubsequenceLast(a2, b);
        var i1, i2 := a1[..|a1| - 1], a2[..|a2| - 1];
        assert a1 == i1 + [z] && a2 == i2 + [z];
        DistinctLast(b);
        forall x ensures x in i1 <==> x in i2 {
          SubsequenceIn(i1, rest, x);
          SubsequenceIn(i2, rest, x);
          assert x in a1 <==> x in i1 || x == z;
          assert x in a2 <==> x in i2 || x == z;
        }
        SubsequenceUnique(i1, i2, rest);
      } else {
        SubsequenceSkip(a1, b);
        SubsequenceSkip(a2, b);
        SubsequenceUnique(a1, a2, rest);
      }
    }
  }

  // ------------------------------------------------------------ properties

  /** A key is among the matches exactly when it occurs in the prompt. */
  lemma {:induction false} MatchesMembers(refs: seq<string>, prompt: string, x: string)
    ensures x in Matches(refs, prompt) <==> x in refs && Contains(prompt, x)
    decreases |refs|
  {
    if refs != [] {
      var init, last := refs[..|refs| - 1], refs[|refs| - 1];
      MatchesMembers(init, prompt, x);
      assert refs == init + [last];
    }
  }

  /** The matches keep the table order. */
  lemma {:induction false} MatchesOrdered(refs: seq<string>, prompt: string)
    ensures Subsequence(Matches(refs, prompt), refs)
    decreases |refs|
  {
    if refs != [] {
      var init, last := refs[..|refs| - 1], refs[|refs| - 1];
      MatchesOrdered(init, prompt);
      var m := Matches(init, prompt);
      if Contains(prompt, last) {
        assert (m + [last])[..|m|] == m;
      } else {
        assert m + [] == m;
      }
    }
  }

  /** A table without repeated keys gives matches without repeats. */
  lemma {:induction false} MatchesDistinct(refs: seq<string>, prompt: string)
    requires Distinct(refs)
    ensures Distinct(Matches(refs, prompt))
    decreases |refs|
  {
    if refs != [] {
      var init, last := refs[..|refs| - 1], refs[|refs| - 1];
      DistinctPrefix(refs, |refs| - 1);
      MatchesDistinct(init, prompt);
      var m := Matches(init, prompt);
      if Contains(prompt, last) {
        DistinctLast(refs);
        forall i | 0 <= i < |m| ensures m[i] != last {
          assert m[i] in m;
          MatchesMembers(init, prompt, m[i]);
        }
        var r := m + [last];
        forall i, j | 0 <= i < j < |r| ensures r[i] != r[j] {
          if j == |m| {
            assert r[i] == m[i];
          } else {
            assert r[i] == m[i] && r[j] == m[j];
          }
        }
      }
    }
  }

  /** Over a table of distinct keys, the matches are the only ordered
      selection of the keys that occur in the prompt. */
  lemma {:induction false} MatchesCharacterized(refs: seq<string>, prompt: string, r: seq<string>)
    requires Distinct(refs) && Subsequence(r, refs)
    requires forall x :: x in r <==> x in refs && Contains(prompt, x)
    ensures r == Matches(refs, prompt)
  {
    MatchesOrdered(refs, prompt);
    forall x ensures x in r <==> x in Matches(refs, prompt) {
      MatchesMembers(refs, prompt, x);
    }
    SubsequenceUnique(r, Matches(refs, prompt), refs);
  }

  /** Either every key, or the keys that occur in the prompt, in table order,
      without repeats, each of them a key. */
  lemma {:induction false} ExtractedShape(refs: seq<string>, prompt: string)
    requires Distinct(refs)
    ensures var r := Extracted(refs, prompt);
      && (MentionsAll(prompt) ==> r == refs)
      && Subsequence(r, refs) && Distinct(r)
      && forall x :: x in r <==> x in refs && (MentionsAll(prompt) || Contains(prompt, x))
  {
    var r := Extracted(refs, prompt);
    if MentionsAll(prompt) {
      SubsequenceSelf(refs);
    } else {
      MatchesOrdered(refs, prompt);
      MatchesDistinct(refs, prompt);
      forall x ensures x in r <==> x in refs && Contains(prompt, x) {
        MatchesMembers(refs, prompt, x);
      }
    }
  }

  lemma {:induction false} SubsequenceSelf<T>(b: seq<T>)
    ensures Subsequence(b, b)
    decreases |b|
  {
    if b != [] {
      SubsequenceSelf(b[..|b| - 1]);
    }
  }

  /** No key in the prompt and no keyword: nothing is returned. */
  lemma {:induction false} NothingFound(refs: seq<string>, prompt: string)
    requires !MentionsAll(prompt)
    requires forall i :: 0 <= i < |refs| ==> !Contains(prompt, refs[i])
    ensures Extracted(refs, prompt) == []
  {
    MatchesNone(refs, prompt);
  }

  lemma {:induction false} MatchesNone(refs: seq<string>, prompt: string)
    requires forall i :: 0 <= i < |refs| ==> !Contains(prompt, refs[i])
    ensures Matches(refs, prompt) == []
    decreases |refs|
  {
    if refs != [] {
      MatchesNone(refs[..|refs| - 1], prompt);
    }
  }

  /** Exactly one key occurs in the prompt and no keyword does: that key alone. */
  lemma {:induction false} SingleMatch(refs: seq<string>, prompt: string, k: nat)
    requires !MentionsAll(prompt) && Distinct(refs) && k < |refs|
    requires forall i :: 0 <= i < |refs| ==> (Contains(prompt, refs[i]) <==> i == k)
    ensures Extracted(refs, prompt) == [refs[k]]
  {
    var r := [refs[k]];
    forall x ensures x in r <==> x in refs && Contains(prompt, x) {
      if x in refs {
        var j :| 0 <= j < |refs| && refs[j] == x;
        assert Contains(prompt, x) <==> j == k;
      }
    }
    assert Subsequence(r, refs) by {
      SubsequenceSingle(refs, k);
    }
    MatchesCharacterized(refs, prompt, r);
  }

  lemma {:induction false} SubsequenceSingle<T>(b: seq<T>, k: nat)
    requires k < |b|
    ensures Subsequence([b[k]], b)
    decreases |b|
  {
    if k < |b| - 1 {
      SubsequenceSingle(b[..|b| - 1], k);
    }
  }

  /** A key whose lower-case form contains a keyword fetches the whole cast
      whenever the prompt names it. */
  lemma {:induction false} KeyHoldsKeyword(refs: seq<string>, prompt: string, key: string, k: nat)
    requires k < |Keywords| && Contains(prompt, key) && Contains(Lower(key), Keywords[k])
    ensures MentionsAll(prompt)
    ensures Extracted(refs, prompt) == refs
  {
    LowerContains(prompt, key);
    ContainsTransitive(Lower(prompt), Lower(key), Keywords[k]);
  }

  // ------------------------------------------------------ absence of a word

  /** Every character of a word that occurs in a text occurs in the text. */
  lemma {:induction false} ContainsChar(s: string, sub: string, k: nat)
    ensures Contains(s, sub) && k < |sub| ==> sub[k] in s
  {
    if Contains(s, sub) && k < |sub| {
      var i := ContainsIndex(s, sub);
      assert s[i + k] == sub[k];
    }
  }

  /** A word with a character the text lacks does not occur in it. */
  lemma {:induction false} AbsentChar(s: string, sub: string, k: nat)
    requires k < |sub| && sub[k] !in s
    ensures !Contains(s, sub)
  {
    ContainsChar(s, sub, k);
  }

  /** Where `c` occurs only at `|u|`, an occurrence of a word holding `c`
      at `j` has the word's next character right after it. */
  lemma {:induction false} SoleCharNext(u: string, c: char, v: string, sub: string, j: nat)
    ensures Contains(u + [c] + v, sub) && c !in u && c !in v && j + 1 < |sub| && sub[j] == c
      ==> v != [] && v[0] == sub[j + 1]
  {
    var s := u + [c] + v;
    if Contains(s, sub) && c !in u && c !in v && j + 1 < |sub| && sub[j] == c {
      var i := ContainsIndex(s, sub);
      assert s[i + j] == c;
      assert i + j == |u|;
      assert s[i + j + 1] == sub[j + 1];
    }
  }

  /** A word whose character `c` occurs once in the text, at `|u|`, and which
      does not continue there as it should, does not occur in the text. */
  lemma {:induction false} SoleChar(u: string, c: char, v: string, sub: string, j: nat)
    requires c !in u && c !in v && j + 1 < |sub| && sub[j] == c
    requires v != [] && v[0] != sub[j + 1]
    ensures !Contains(u + [c] + v, sub)
  {
    SoleCharNext(u, c, v, sub, j);
  }

  lemma {:induction false} PrefixAt(sub: string, t: string, m: int)
    ensures sub <= t && 0 <= m < |sub| ==> sub[m] == t[m]
  {
  }

  /** An occurrence of a word without spaces lies on one side of a space. */
  lemma {:induction false} SpaceSides(u: string, v: string, sub: string)
    ensures ' ' !in sub && Contains(u + " " + v, sub) ==> Contains(u, sub) || Contains(v, sub)
  {
    var s := u + " " + v;
    if ' ' !in sub && Contains(s, sub) {
      var i := ContainsIndex(s, sub);
      if i + |sub| <= |u| {
        assert sub <= u[i..] by {
          forall m | 0 <= m < |sub| ensures sub[m] == u[i + m] {
            assert s[i + m] == u[i + m];
          }
        }
        ContainsAt(u, sub, i);
      } else {
        assert i > |u| by {
          assert s[|u|] == ' ';
          PrefixAt(sub, s[i..], |u| - i);
        }
        assert sub <= v[i - |u| - 1..] by {
          forall m | 0 <= m < |sub| ensures sub[m] == v[i - |u| - 1 + m] {
            assert s[i + m] == v[i - |u| - 1 + m];
          }
        }
        ContainsAt(v, sub, i - |u| - 1);
      }
    }
  }

  /** Cutting at a space: a word without spaces occurs in neither half. */
  lemma {:induction false} SpaceCut(u: string, v: string, sub: string)
    requires ' ' !in sub && !Contains(u, sub) && !Contains(v, sub)
    ensures !Contains(u + " " + v, sub)
  {
    SpaceSides(u, v, sub);
  }

  lemma {:induction false} LowerAppend(a: string, b: string)
    ensures Lower(a + b) == Lower(a) + Lower(b)
  {
  }

  /** A lower-case letter with neither case in the text is not in its lower-case form. */
  lemma {:induction false} LowerLacks(s: string, c: char)
    requires 'a' <= c <= 'z' && c !in s && (c as int - 32) as char !in s
    ensures c !in Lower(s)
  {
  }

  /** A keyword with a letter the prompt lacks in both cases is not mentioned. */
  lemma {:induction false} KeywordAbsent(s: string, w: string, k: nat)
    requires k < |w| && 'a' <= w[k] <= 'z' && w[k] !in s && (w[k] as int - 32) as char !in s
    ensures !Contains(Lower(s), w)
  {
    LowerLacks(s, w[k]);
    AbsentChar(Lower(s), w, k);
  }

  /** A keyword whose letter occurs once in the prompt, at `|u|`, followed by
      something other than the keyword's next letter, is not mentioned. */
  lemma {:induction false} KeywordSole(u: string, x: char, v: string, w: string, j: nat)
    requires j + 1 < |w| && 'a' <= w[j] <= 'z' && LowerChar(x) == w[j]
    requires w[j] !in u && (w[j] as int - 32) as char !in u
    requires w[j] !in v && (w[j] as int - 32) as char !in v
    requires v != [] && LowerChar(v[0]) != w[j + 1]
    ensures !Contains(Lower(u + [x] + v), w)
  {
    var c := w[j];
    var lu, lv := Lower(u), Lower(v);
    LowerLacks(u, c);
    LowerLacks(v, c);
    assert Lower([x]) == [c];
    LowerAppend(u, [x]);
    LowerAppend(u + [x], v);
    assert Lower(u + [x] + v) == lu + [c] + lv;
    assert lv != [] && lv[0] != w[j + 1];
    SoleChar(lu, c, lv, w, j);
  }

  /** Cutting the prompt at a space, for a keyword. */
  lemma {:induction false} KeywordCut(u: string, v: string, w: string)
    requires ' ' !in w && !Contains(Lower(u), w) && !Contains(Lower(v), w)
    ensures !Contains(Lower(u + " " + v), w)
  {
    LowerAppend(u + " ", v);
    LowerAppend(u, " ");
    assert Lower(" ") == " ";
    SpaceCut(Lower(u), Lower(v), w);
  }

  // ------------------------------------------------ absence in a spaced prompt

  /** A word without spaces that no word of the prompt contains does not
      occur in the words joined by spaces. */
  lemma {:induction false} WordsLack(words: seq<string>, sub: string)
    requires |words| >= 1 && ' ' !in sub
    requires forall i :: 0 <= i < |words| ==> !Contains(words[i], sub)
    ensures !Contains(Join(" ", words), sub)
    decreases |words|
  {
    if |words| > 1 {
      WordsLack(words[1..], sub);
      SpaceCut(words[0], Join(" ", words[1..]), sub);
    }
  }

  /** The same for a keyword, against the lower-cased words. */
  lemma {:induction false} WordsLackKeyword(words: seq<string>, w: string)
    requires |words| >= 1 && ' ' !in w
    requires forall i :: 0 <= i < |words| ==> !Contains(Lower(words[i]), w)
    ensures !Contains(Lower(Join(" ", words)), w)
    decreases |words|
  {
    if |words| > 1 {
      WordsLackKeyword(words[1..], w);
      KeywordCut(words[0], Join(" ", words[1..]), w);
    }
  }

  /** A text missing a piece of `key` is missing `key`. */
  lemma {:induction false} PartAbsent(s: string, key: string, part: string, at: nat)
    requires at + |part| <= |key| && key[at..at + |part|] == part && !Contains(s, part)
    ensures !Contains(s, key)
  {
    assert part <= key[at..];
    ContainsAt(key, part, at);
    if Contains(s, key) {
      ContainsTransitive(s, key, part);
    }
  }

  /** A key with a character that no word of the prompt has is not in the
      prompt. */
  lemma {:induction false} KeyLetterAbsent(words: seq<string>, key: string, k: nat)
    requires |words| >= 1 && k < |key| && key[k] != ' '
    requires forall i :: 0 <= i < |words| ==> key[k] !in words[i]
    ensures !Contains(Join(" ", words), key)
  {
    var part := key[k..k + 1];
    forall i | 0 <= i < |words| ensures !Contains(words[i], part) {
      AbsentChar(words[i], part, 0);
    }
    WordsLack(words, part);
    PartAbsent(Join(" ", words), key, part, k);
  }

  /** No keyword mentioned, one by one. */
  lemma {:induction false} NoKeyword(prompt: string)
    requires !Contains(Lower(prompt), Keywords[0]) && !Contains(Lower(prompt), Keywords[1])
    requires !Contains(Lower(prompt), Keywords[2]) && !Contains(Lower(prompt), Keywords[3])
    ensures !MentionsAll(prompt)
  {
  }

  /** The words joined by spaces start with the first `n` of them so joined. */
  lemma {:induction false} JoinFront(words: seq<string>, n: nat)
    requires 0 < n < |words|
    ensures Join(" ", words) == Join(" ", words[..n]) + (" " + Join(" ", words[n..]))
    decreases n
  {
    if n > 1 {
      JoinFront(words[1..], n - 1);
      assert words[1..][..n - 1] == words[..n][1..];
      assert words[1..][n - 1..] == words[n..];
    } else {
      assert words[..1] == [words[0]];
      assert words[1..] == words[n..];
    }
  }

  /** A keyword with a letter that no word of the prompt has in either case
      is not mentioned. */
  lemma {:induction false} LetterAbsent(words: seq<string>, w: string, k: nat)
    requires |words| >= 1 && k < |w| && 'a' <= w[k] <= 'z'
    requires forall i :: 0 <= i < |words| ==> w[k] !in words[i] && (w[k] as int - 32) as char !in words[i]
    ensures !Contains(Lower(Join(" ", words)), w)
  {
    var part := w[k..k + 1];
    forall i | 0 <= i < |words| ensures !Contains(Lower(words[i]), part) {
      KeywordAbsent(words[i], part, 0);
    }
    WordsLackKeyword(words, part);
    PartAbsent(Lower(Join(" ", words)), w, part, k);
  }
}
