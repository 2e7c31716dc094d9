/** `generate_character_combinations` (prompt_agent.py:224-265): one grouping
    of character names per scene. `random.randint` and `random.sample` are
    driven by an `Oracle` of raw draws, so every property below holds for
    every possible outcome of the random calls. */
module Combinations {
  import opened Outcomes
  import opened Text
  import opened SpecParser

  /** The raw random draws of a run, by scene: `sizes[i]` drives the
      `randint` of scene i, `picks[i]` the successive picks of its `sample`.
      A missing entry reads as 0, so every oracle is a legal one. */
  datatype Oracle = Oracle(sizes: seq<nat>, picks: seq<seq<nat>>)

  function At(s: seq<nat>, i: nat): nat {
    if i < |s| then s[i] else 0
  }

  function Rest(s: seq<nat>): seq<nat> {
    if s == [] then [] else s[1..]
  }

  function PicksAt(o: Oracle, i: nat): seq<nat> {
    if i < |o.picks| then o.picks[i] else []
  }

  function Min(a: int, b: int): int {
    if a <= b then a else b
  }

  /** The number of loop iterations of `range(count)`. */
  function Iterations(count: int): nat {
    if count > 0 then count else 0
  }

  // ------------------------------------------------------------ random calls

  /** `random.randint(lo, hi)` on the raw draw `raw`. */
  function RandInt(lo: int, hi: int, raw: nat): (r: int)
    requires lo <= hi
    ensures lo <= r <= hi
  {
    lo + raw % (hi - lo + 1)
  }

  /** Every value of the range is the outcome of some draw. */
  lemma RandIntReaches(lo: int, hi: int, v: int)
    requires lo <= v <= hi
    ensures RandInt(lo, hi, v - lo) == v
  {
  }

  /** `s` without position `j`. */
  function RemoveAt<T>(s: seq<T>, j: nat): (r: seq<T>)
    requires j < |s|
    ensures |r| == |s| - 1
    decreases j
  {
    if j == 0 then s[1..] else [s[0]] + RemoveAt(s[1..], j - 1)
  }

  /** `random.sample(pool, k)`: k picks without replacement, the i-th pick
      taking position `raws[i] % n` of the n names not picked yet. */
  function Sample<T>(pool: seq<T>, raws: seq<nat>, k: nat): (r: seq<T>)
    requires k <= |pool|
    ensures |r| == k
    decreases k
  {
    if k == 0 then []
    else
      var j := At(raws, 0) % |pool|;
      [pool[j]] + Sample(RemoveAt(pool, j), Rest(raws), k - 1)
  }

  /** Position `p` of `s`, once position `j` is gone. */
  function Shifted(p: nat, j: nat): nat {
    if p <= j then p else p - 1
  }

  lemma {:induction false} RemoveAtIndex<T>(s: seq<T>, j: nat, p: nat)
    requires j < |s| && p < |s| && p != j
    ensures Shifted(p, j) < |s| - 1 && RemoveAt(s, j)[Shifted(p, j)] == s[p]
    decreases j
  {
    if j > 0 && p > 0 {
      RemoveAtIndex(s[1..], j - 1, p - 1);
    }
  }

  /** Distinct positions of a sequence of length n. */
  predicate Positions(ps: seq<nat>, n: nat) {
    && (forall i :: 0 <= i < |ps| ==> ps[i] < n)
    && (forall i, j :: 0 <= i < j < |ps| ==> ps[i] != ps[j])
  }

  /** The positions after the first, renumbered once the first is gone. */
  function Shift(ps: seq<nat>): (r: seq<nat>)
    requires ps != []
    ensures |r| == |ps| - 1
  {
    seq(|ps| - 1, i requires 0 <= i < |ps| - 1 => Shifted(ps[i + 1], ps[0]))
  }

  /** The entries of `pool` at the positions `ps`, in that order. */
  function Picked<T>(pool: seq<T>, ps: seq<nat>): seq<T>
    requires Positions(ps, |pool|)
  {
    seq(|ps|, i requires 0 <= i < |ps| => pool[ps[i]])
  }

  /** Renumbered, the other positions stay distinct and valid. */
  lemma ShiftValid(ps: seq<nat>, n: nat)
    requires Positions(ps, n) && ps != []
    ensures Positions(Shift(ps), n - 1)
  {
  }

  /** The renumbered positions pick the same entries as before. */
  lemma {:induction false} ShiftPositions<T>(pool: seq<T>, ps: seq<nat>)
    requires Positions(ps, |pool|) && ps != []
    ensures Positions(Shift(ps), |pool| - 1)
    ensures Picked(pool, ps) == [pool[ps[0]]] + Picked(RemoveAt(pool, ps[0]), Shift(ps))
  {
    ShiftValid(ps, |pool|);
    var smaller, rest := RemoveAt(pool, ps[0]), Shift(ps);
    forall i | 0 <= i < |rest| ensures smaller[rest[i]] == pool[ps[i + 1]] {
      RemoveAtIndex(pool, ps[0], ps[i + 1]);
    }
  }

  /** A pick list starting with position `j` takes `pool[j]` first. */
  lemma SampleFirst<T>(pool: seq<T>, j: nat, tail: seq<nat>, k: nat)
    requires j < |pool| && 0 < k <= |pool|
    ensures Sample(pool, [j] + tail, k) == [pool[j]] + Sample(RemoveAt(pool, j), tail, k - 1)
  {
    var raws := [j] + tail;
    assert At(raws, 0) == j && Rest(raws) == tail;
    assert j % |pool| == j;
  }

  /** Every outcome of `random.sample`: any choice of distinct positions of
      the pool, in any order, is the sample of some list of raw picks. */
  lemma {:induction false} SampleReaches<T>(pool: seq<T>, ps: seq<nat>)
    requires Positions(ps, |pool|)
    ensures |ps| <= |pool|
    ensures exists raws :: Sample(pool, raws, |ps|) == Picked(pool, ps)
    decreases |ps|
  {
    if ps == [] {
      assert Sample(pool, [], 0) == Picked(pool, ps);
    } else {
      var smaller, rest := RemoveAt(pool, ps[0]), Shift(ps);
      ShiftPositions(pool, ps);
      SampleReaches(smaller, rest);
      var tail :| Sample(smaller, tail, |rest|) == Picked(smaller, rest);
      SampleFirst(pool, ps[0], tail, |ps|);
    }
  }

  /** The position `list.index(x)` finds. */
  function First<T(==)>(s: seq<T>, x: T): (i: nat)
    requires x in s
    ensures i < |s| && s[i] == x && x !in s[..i]
  {
    if s[0] == x then 0
    else
      var j := First(s[1..], x);
      assert s[..j + 1] == [s[0]] + s[1..][..j];
      j + 1
  }

  /** `if x in s: s.remove(x)`: drops the first occurrence of `x`, if any. */
  function RemoveIfPresent<T(==)>(s: seq<T>, x: T): seq<T> {
    if x in s then RemoveAt(s, First(s, x)) else s
  }

  /** `for x in xs: if x in s: s.remove(x)` */
  function RemoveEach<T(==)>(s: seq<T>, xs: seq<T>): seq<T>
    decreases |xs|
  {
    if xs == [] then s
    else RemoveEach(RemoveIfPresent(s, xs[0]), xs[1..])
  }

  // ------------------------------------------------------ occurrence counts

  /** `s.count(x)` */
  function Count<T(==)>(s: seq<T>, x: T): nat
    decreases |s|
  {
    if s == [] then 0 else (if s[0] == x then 1 else 0) + Count(s[1..], x)
  }

  /** Truncated subtraction. */
  function Monus(a: nat, b: nat): nat {
    if b <= a then a - b else 0
  }

  lemma {:induction false} CountIn<T>(s: seq<T>, x: T)
    ensures x in s <==> Count(s, x) > 0
    decreases |s|
  {
    if s != [] {
      CountIn(s[1..], x);
      assert s == [s[0]] + s[1..];
    }
  }

  /** The count is the multiplicity in the multiset of the sequence. */
  lemma {:induction false} CountMultiset<T>(s: seq<T>, x: T)
    ensures Count(s, x) == multiset(s)[x]
    decreases |s|
  {
    if s != [] {
      CountMultiset(s[1..], x);
      assert s == [s[0]] + s[1..];
      assert multiset(s) == multiset{s[0]} + multiset(s[1..]);
    }
  }

  lemma {:induction false} RemoveAtCount<T>(s: seq<T>, j: nat, x: T)
    requires j < |s|
    ensures Count(RemoveAt(s, j), x) == Count(s, x) - (if s[j] == x then 1 else 0)
    decreases j
  {
    if j > 0 {
      RemoveAtCount(s[1..], j - 1, x);
      assert ([s[0]] + RemoveAt(s[1..], j - 1))[1..] == RemoveAt(s[1..], j - 1);
    }
  }

  /** A sample takes each pool entry at most once. */
  lemma {:induction false} SampleCount<T>(pool: seq<T>, raws: seq<nat>, k: nat, x: T)
    requires k <= |pool|
    ensures Count(Sample(pool, raws, k), x) <= Count(pool, x)
    decreases k
  {
    if k > 0 {
      var j := At(raws, 0) % |pool|;
      var rest := Sample(RemoveAt(pool, j), Rest(raws), k - 1);
      SampleCount(RemoveAt(pool, j), Rest(raws), k - 1, x);
      RemoveAtCount(pool, j, x);
      assert ([pool[j]] + rest)[1..] == rest;
    }
  }

  lemma {:induction false} RemoveIfPresentCount<T>(s: seq<T>, y: T, x: T)
    ensures Count(RemoveIfPresent(s, y), x) == if y == x then Monus(Count(s, x), 1) else Count(s, x)
  {
    CountIn(s, y);
    if y in s {
      RemoveAtCount(s, First(s, y), x);
    }
  }

  /** Removing names one at a time takes away as many copies of `x` as
      there are, up to the number of times `x` is removed. */
  lemma {:induction false} RemoveEachCount<T>(s: seq<T>, xs: seq<T>, x: T)
    ensures Count(RemoveEach(s, xs), x) == Monus(Count(s, x), Count(xs, x))
    decreases |xs|
  {
    if xs != [] {
      RemoveIfPresentCount(s, xs[0], x);
      RemoveEachCount(RemoveIfPresent(s, xs[0]), xs[1..], x);
    }
  }

  lemma {:induction false} RemoveEachShorter<T>(s: seq<T>, xs: seq<T>)
    ensures |RemoveEach(s, xs)| <= |s|
    decreases |xs|
  {
    if xs != [] {
      RemoveEachShorter(RemoveIfPresent(s, xs[0]), xs[1..]);
    }
  }

  // ------------------------------------------------------- count_specified

  /** The scene size of scene i: `min` when the bounds agree, else a `randint`. */
  function SceneSize(lo: nat, hi: nat, o: Oracle, i: nat): (k: nat)
    requires lo <= hi
    ensures lo <= k <= hi
    ensures lo == hi ==> k == lo
  {
    if lo == hi then lo else RandInt(lo, hi, At(o.sizes, i))
  }

  /** The pool a scene draws from: reset to the full list when too small. */
  function Available(characters: seq<string>, pool: seq<string>, size: nat): seq<string> {
    if |pool| < size then characters else pool
  }

  // The state of the count_specified loop, scene by scene. The three
  // functions are one recursive group: `available_chars` at the start of
  // scene j, the names scene j draws from, and the grouping it draws.

  /** `available_chars` at the start of scene j. */
  function Pool(characters: seq<string>, lo: nat, hi: nat, o: Oracle, j: nat): seq<string>
    requires lo <= hi
    decreases j, 0
  {
    if j == 0 then characters
    else RemoveEach(Avail(characters, lo, hi, o, j - 1), Group(characters, lo, hi, o, j - 1))
  }

  /** The names scene j samples from, after a possible reset. */
  function Avail(characters: seq<string>, lo: nat, hi: nat, o: Oracle, j: nat): seq<string>
    requires lo <= hi
    decreases j, 1
  {
    Available(characters, Pool(characters, lo, hi, o, j), SceneSize(lo, hi, o, j))
  }

  /** The grouping of scene j. */
  function Group(characters: seq<string>, lo: nat, hi: nat, o: Oracle, j: nat): seq<string>
    requires lo <= hi
    decreases j, 2
  {
    var avail := Avail(characters, lo, hi, o, j);
    Sample(avail, PicksAt(o, j), Min(SceneSize(lo, hi, o, j), |avail|))
  }

  /** Whether scene j resets the pool. */
  predicate Resets(characters: seq<string>, lo: nat, hi: nat, o: Oracle, j: nat)
    requires lo <= hi
  {
    |Pool(characters, lo, hi, o, j)| < SceneSize(lo, hi, o, j)
  }

  // ---------------------------------------------------------- whole function

  /** The together branch: the whole list in every scene. */
  function Repeated(characters: seq<string>, n: nat): seq<seq<string>> {
    seq(n, _ => characters)
  }

  /** The auto branch: one name per scene, cycling through the list. */
  function Cycled(characters: seq<string>, n: nat): seq<seq<string>>
    requires |characters| > 0
  {
    seq(n, j requires 0 <= j < n => [characters[j % |characters|]])
  }

  /** The count_specified branch. */
  function Drawn(characters: seq<string>, lo: nat, hi: nat, o: Oracle, n: nat): seq<seq<string>>
    requires lo <= hi
    decreases n
  {
    if n == 0 then [] else Drawn(characters, lo, hi, o, n - 1) + [Group(characters, lo, hi, o, n - 1)]
  }

  /** `generate_character_combinations(char_config, count)`; a ValueError of
      `randint` (min > max) and a ZeroDivisionError of `i % len(characters)`
      are errors. */
  function Combinations(c: CharConfig, count: int, o: Oracle): Result<seq<seq<string>>> {
    var n := Iterations(count);
    match (c.mode, c.distribution)
    case (Together, _) => Ok(Repeated(c.characters, n))
    case (Separate, CountSpecified(lo, hi)) =>
      if n == 0 then Ok([])
      else if lo > hi then Err(EmptyRandRange)
      else Ok(Drawn(c.characters, lo, hi, o, n))
    case (Separate, Auto) =>
      if n == 0 then Ok([])
      else if |c.characters| == 0 then Err(ZeroDivision)
      else Ok(Cycled(c.characters, n))
  }

  /** The loops of `generate_character_combinations`. */
  method GenerateCharacterCombinations(c: CharConfig, count: int, o: Oracle)
    returns (r: Result<seq<seq<string>>>)
    ensures r == Combinations(c, count, o)
  {
    var n := Iterations(count);
    if c.mode == Together {
      var combinations := RepeatCharacters(c.characters, n);
      return Ok(combinations);
    }
    match c.distribution
    case CountSpecified(lo, hi) =>
      r := DrawCharacters(c.characters, lo, hi, o, n);
    case Auto =>
      r := CycleCharacters(c.characters, n);
  }

  /** `for _ in range(count): combinations_list.append(characters[:])` */
  method RepeatCharacters(characters: seq<string>, n: nat) returns (combinations: seq<seq<string>>)
    ensures combinations == Repeated(characters, n)
  {
    combinations := [];
    for i := 0 to n
      invariant |combinations| == i
      invariant forall j :: 0 <= j < i ==> combinations[j] == characters
    {
      combinations := combinations + [characters];
    }
  }

  /** The auto loop; `i % len(characters)` fails on an empty list. */
  method CycleCharacters(characters: seq<string>, n: nat) returns (r: Result<seq<seq<string>>>)
    ensures n == 0 ==> r == Ok([])
    ensures n > 0 && |characters| == 0 ==> r == Err(ZeroDivision)
    ensures n > 0 && |characters| > 0 ==> r == Ok(Cycled(characters, n))
  {
    var combinations: seq<seq<string>> := [];
    for i := 0 to n
      invariant |combinations| == i
      invariant i > 0 ==> |characters| > 0
      invariant forall j :: 0 <= j < i ==> combinations[j] == [characters[j % |characters|]]
    {
      if |characters| == 0 {
        return Err(ZeroDivision);
      }
      combinations := combinations + [[characters[i % |characters|]]];
    }
    if n > 0 {
      assert combinations == Cycled(characters, n);
    }
    return Ok(combinations);
  }

  /** The count_specified loop, with `available_chars` reset and shrunk in place. */
  method DrawCharacters(characters: seq<string>, lo: nat, hi: nat, o: Oracle, n: nat)
    returns (r: Result<seq<seq<string>>>)
    ensures n == 0 ==> r == Ok([])
    ensures n > 0 && lo > hi ==> r == Err(EmptyRandRange)
    ensures n > 0 && lo <= hi ==> r == Ok(Drawn(characters, lo, hi, o, n))
  {
    var combinations: seq<seq<string>> := [];
    var available := characters;
    for i := 0 to n
      invariant i > 0 ==> lo <= hi
      invariant lo <= hi ==> available == Pool(characters, lo, hi, o, i)
      invariant lo <= hi ==> combinations == Drawn(characters, lo, hi, o, i)
    {
      if lo > hi {
        return Err(EmptyRandRange);
      }
      var selected;
      selected, available := DrawScene(characters, lo, hi, available, o, i);
      combinations := combinations + [selected];
    }
    if n == 0 {
      return Ok([]);
    }
    return Ok(combinations);
  }

  /** One pass of the count_specified loop body (prompt_agent.py:244-258). */
  method DrawScene(characters: seq<string>, lo: nat, hi: nat, pool: seq<string>, o: Oracle, i: nat)
    returns (selected: seq<string>, available: seq<string>)
    requires lo <= hi && pool == Pool(characters, lo, hi, o, i)
    ensures selected == Group(characters, lo, hi, o, i)
    ensures available == Pool(characters, lo, hi, o, i + 1)
  {
    var size: nat;
    if lo == hi {
      size := lo;
    } else {
      size := RandInt(lo, hi, At(o.sizes, i));
    }
    available := pool;
    if |available| < size {
      available := characters;
    }
    selected := Sample(available, PicksAt(o, i), Min(size, |available|));
    available := RemoveSelected(available, selected);
  }

  /** `for char in selected: if char in available_chars: available_chars.remove(char)` */
  method RemoveSelected(available: seq<string>, selected: seq<string>) returns (rest: seq<string>)
    ensures rest == RemoveEach(available, selected)
  {
    rest := available;
    for m := 0 to |selected|
      invariant RemoveEach(rest, selected[m..]) == RemoveEach(available, selected)
    {
      assert selected[m..][1..] == selected[m + 1..];
      if selected[m] in rest {
        rest := RemoveAt(rest, First(rest, selected[m]));
      }
    }
  }

  // ------------------------------------------------------------ properties

  /** With no name twice, every name occurs at most once. */
  lemma {:induction false} DistinctCount<T>(s: seq<T>, x: T)
    requires Distinct(s)
    ensures Count(s, x) <= 1
    decreases |s|
  {
    if s != [] {
      assert Distinct(s[1..]) by {
        forall a, b | 0 <= a < b < |s[1..]| ensures s[1..][a] != s[1..][b] {
          assert s[1..][a] == s[a + 1] && s[1..][b] == s[b + 1];
        }
      }
      DistinctCount(s[1..], x);
      if s[0] == x {
        assert x !in s[1..] by {
          forall k | 0 <= k < |s[1..]| ensures s[1..][k] != x {
            assert s[1..][k] == s[k + 1];
          }
        }
        CountIn(s[1..], x);
      }
    }
  }

  /** A name at two positions occurs at least twice. */
  lemma {:induction false} TwiceCount<T>(s: seq<T>, a: nat, b: nat)
    requires a < b < |s| && s[a] == s[b]
    ensures Count(s, s[a]) >= 2
    decreases a
  {
    if a > 0 {
      TwiceCount(s[1..], a - 1, b - 1);
    } else {
      assert s[1..][b - 1] == s[b];
      CountIn(s[1..], s[b]);
    }
  }

  /** A list in which every name occurs at most once has no repeats. */
  lemma {:induction false} CountDistinct<T>(g: seq<T>)
    requires forall x :: Count(g, x) <= 1
    ensures Distinct(g)
  {
    forall a, b | 0 <= a < b < |g| ensures g[a] != g[b] {
      if g[a] == g[b] {
        TwiceCount(g, a, b);
        assert false;
      }
    }
  }

  /** Counts bounded name by name give a sub-multiset. */
  lemma {:induction false} CountsWithin<T>(a: seq<T>, b: seq<T>)
    requires forall x :: Count(a, x) <= Count(b, x)
    ensures multiset(a) <= multiset(b)
  {
    forall x ensures multiset(a)[x] <= multiset(b)[x] {
      CountMultiset(a, x);
      CountMultiset(b, x);
    }
  }

  /** Scene j, name by name: the grouping has min(size, |available|) names
      of the names it drew from, and the pool it leaves is those names minus
      the grouping. */
  lemma {:induction false} SceneCounts(characters: seq<string>, lo: nat, hi: nat, o: Oracle, j: nat, x: string)
    requires lo <= hi
    ensures var avail := Avail(characters, lo, hi, o, j);
      var group := Group(characters, lo, hi, o, j);
      var next := Pool(characters, lo, hi, o, j + 1);
      && |group| == Min(SceneSize(lo, hi, o, j), |avail|)
      && Count(group, x) <= Count(avail, x)
      && Count(next, x) == Count(avail, x) - Count(group, x)
      && |next| <= |avail|
  {
    var avail := Avail(characters, lo, hi, o, j);
    var group := Group(characters, lo, hi, o, j);
    SampleCount(avail, PicksAt(o, j), Min(SceneSize(lo, hi, o, j), |avail|), x);
    RemoveEachCount(avail, group, x);
    RemoveEachShorter(avail, group);
  }

  /** The pool is never longer than the character list. */
  lemma {:induction false} PoolShorter(characters: seq<string>, lo: nat, hi: nat, o: Oracle, j: nat)
    requires lo <= hi
    ensures |Pool(characters, lo, hi, o, j)| <= |characters|
    decreases j
  {
    if j > 0 {
      PoolShorter(characters, lo, hi, o, j - 1);
      SceneCounts(characters, lo, hi, o, j - 1, []);
    }
  }

  /** The pool never holds a name more often than the character list. */
  lemma {:induction false} PoolCount(characters: seq<string>, lo: nat, hi: nat, o: Oracle, j: nat, x: string)
    requires lo <= hi
    ensures Count(Pool(characters, lo, hi, o, j), x) <= Count(characters, x)
    decreases j
  {
    if j > 0 {
      PoolCount(characters, lo, hi, o, j - 1, x);
      SceneCounts(characters, lo, hi, o, j - 1, x);
    }
  }

  /** The pool is always a sub-multiset of the character list. */
  lemma {:induction false} PoolWithin(characters: seq<string>, lo: nat, hi: nat, o: Oracle, j: nat)
    requires lo <= hi
    ensures multiset(Pool(characters, lo, hi, o, j)) <= multiset(characters)
  {
    forall x ensures Count(Pool(characters, lo, hi, o, j), x) <= Count(characters, x) {
      PoolCount(characters, lo, hi, o, j, x);
    }
    CountsWithin(Pool(characters, lo, hi, o, j), characters);
  }

  /** Scene j draws min(k, len(characters)) names, k its drawn size, and never
      a name more often than the list holds it. */
  lemma {:induction false} GroupCount(characters: seq<string>, lo: nat, hi: nat, o: Oracle, j: nat, x: string)
    requires lo <= hi
    ensures |Group(characters, lo, hi, o, j)| == Min(SceneSize(lo, hi, o, j), |characters|)
    ensures Count(Group(characters, lo, hi, o, j), x) <= Count(characters, x)
  {
    PoolShorter(characters, lo, hi, o, j);
    PoolCount(characters, lo, hi, o, j, x);
    SceneCounts(characters, lo, hi, o, j, x);
  }

  lemma {:induction false} GroupSubMultiset(characters: seq<string>, lo: nat, hi: nat, o: Oracle, j: nat)
    requires lo <= hi
    ensures multiset(Group(characters, lo, hi, o, j)) <= multiset(characters)
  {
    forall x ensures Count(Group(characters, lo, hi, o, j), x) <= Count(characters, x) {
      GroupCount(characters, lo, hi, o, j, x);
    }
    CountsWithin(Group(characters, lo, hi, o, j), characters);
  }

  lemma {:induction false} GroupDistinct(characters: seq<string>, lo: nat, hi: nat, o: Oracle, j: nat)
    requires lo <= hi && Distinct(characters)
    ensures Distinct(Group(characters, lo, hi, o, j))
  {
    forall x ensures Count(Group(characters, lo, hi, o, j), x) <= 1 {
      GroupCount(characters, lo, hi, o, j, x);
      DistinctCount(characters, x);
    }
    CountDistinct(Group(characters, lo, hi, o, j));
  }

  /** Scene j draws min(k, len(characters)) names of the list, k its drawn size;
      with distinct names, no name twice. */
  lemma {:induction false} GroupWithin(characters: seq<string>, lo: nat, hi: nat, o: Oracle, j: nat)
    requires lo <= hi
    ensures |Group(characters, lo, hi, o, j)| == Min(SceneSize(lo, hi, o, j), |characters|)
    ensures multiset(Group(characters, lo, hi, o, j)) <= multiset(characters)
    ensures Distinct(characters) ==> Distinct(Group(characters, lo, hi, o, j))
  {
    GroupCount(characters, lo, hi, o, j, []);
    GroupSubMultiset(characters, lo, hi, o, j);
    if Distinct(characters) {
      GroupDistinct(characters, lo, hi, o, j);
    }
  }

  /** Right after scene j, none of its names is left in the pool. */
  lemma {:induction false} PoolExcludesGroup(characters: seq<string>, lo: nat, hi: nat, o: Oracle, j: nat, x: string)
    requires lo <= hi && Distinct(characters)
    requires x in Group(characters, lo, hi, o, j)
    ensures x !in Pool(characters, lo, hi, o, j + 1)
  {
    PoolCount(characters, lo, hi, o, j, x);
    SceneCounts(characters, lo, hi, o, j, x);
    DistinctCount(characters, x);
    CountIn(Group(characters, lo, hi, o, j), x);
    CountIn(Pool(characters, lo, hi, o, j + 1), x);
  }

  /** A scene that does not reset keeps a missing name out of its grouping
      and out of the pool. */
  lemma {:induction false} PoolKeepsOut(characters: seq<string>, lo: nat, hi: nat, o: Oracle, k: nat, x: string)
    requires lo <= hi
    requires x !in Pool(characters, lo, hi, o, k) && !Resets(characters, lo, hi, o, k)
    ensures x !in Group(characters, lo, hi, o, k)
    ensures x !in Pool(characters, lo, hi, o, k + 1)
  {
    var pool := Pool(characters, lo, hi, o, k);
    SceneCounts(characters, lo, hi, o, k, x);
    CountIn(pool, x);
    CountIn(Group(characters, lo, hi, o, k), x);
    CountIn(Pool(characters, lo, hi, o, k + 1), x);
  }

  /** A name missing from the pool stays missing while no scene resets. */
  lemma {:induction false} PoolStaysOut(characters: seq<string>, lo: nat, hi: nat, o: Oracle, a: nat, k: nat, x: string)
    requires lo <= hi && a <= k
    requires forall m :: a <= m < k ==> !Resets(characters, lo, hi, o, m)
    requires x !in Pool(characters, lo, hi, o, a)
    ensures x !in Pool(characters, lo, hi, o, k)
    decreases k
  {
    if a < k {
      PoolStaysOut(characters, lo, hi, o, a, k - 1, x);
      PoolKeepsOut(characters, lo, hi, o, k - 1, x);
    }
  }

  /** After scene j1, none of its names is back in the pool until a reset. */
  lemma {:induction false} PoolExcludes(characters: seq<string>, lo: nat, hi: nat, o: Oracle, j1: nat, k: nat, x: string)
    requires lo <= hi && Distinct(characters)
    requires j1 < k
    requires forall m :: j1 < m < k ==> !Resets(characters, lo, hi, o, m)
    requires x in Group(characters, lo, hi, o, j1)
    ensures x !in Pool(characters, lo, hi, o, k)
  {
    PoolExcludesGroup(characters, lo, hi, o, j1, x);
    PoolStaysOut(characters, lo, hi, o, j1 + 1, k, x);
  }

  /** With distinct names, no name appears in two groupings drawn between
      consecutive resets. */
  lemma {:induction false} NoRepeatBetweenResets(characters: seq<string>, lo: nat, hi: nat, o: Oracle, j1: nat, j2: nat)
    requires lo <= hi && Distinct(characters)
    requires j1 < j2
    requires forall m :: j1 < m <= j2 ==> !Resets(characters, lo, hi, o, m)
    ensures forall x :: x in Group(characters, lo, hi, o, j1) ==> x !in Group(characters, lo, hi, o, j2)
  {
    forall x | x in Group(characters, lo, hi, o, j1)
      ensures x !in Group(characters, lo, hi, o, j2)
    {
      PoolExcludes(characters, lo, hi, o, j1, j2, x);
      PoolKeepsOut(characters, lo, hi, o, j2, x);
    }
  }

  lemma {:induction false} DrawnLength(characters: seq<string>, lo: nat, hi: nat, o: Oracle, n: nat)
    requires lo <= hi
    ensures |Drawn(characters, lo, hi, o, n)| == n
    decreases n
  {
    if n > 0 {
      DrawnLength(characters, lo, hi, o, n - 1);
    }
  }

  /** Scene j of the count_specified branch is grouping j. */
  lemma {:induction false} DrawnAt(characters: seq<string>, lo: nat, hi: nat, o: Oracle, n: nat, j: nat)
    requires lo <= hi && j < n
    ensures |Drawn(characters, lo, hi, o, n)| == n
    ensures Drawn(characters, lo, hi, o, n)[j] == Group(characters, lo, hi, o, j)
    decreases n
  {
    DrawnLength(characters, lo, hi, o, n);
    DrawnLength(characters, lo, hi, o, n - 1);
    if j < n - 1 {
      DrawnAt(characters, lo, hi, o, n - 1, j);
    }
  }

  /** `range(count)` iterations: exactly max(0, count) groupings. */
  lemma {:induction false} CombinationsLength(c: CharConfig, count: int, o: Oracle)
    ensures Combinations(c, count, o).Ok? ==> |Combinations(c, count, o).value| == Iterations(count)
  {
    if c.mode == Separate && c.distribution.CountSpecified? && Iterations(count) > 0 {
      var d := c.distribution;
      if d.minChars <= d.maxChars {
        DrawnLength(c.characters, d.minChars, d.maxChars, o, Iterations(count));
      }
    }
  }

  /** The generator fails exactly when a scene would call `randint` on an
      empty range, or take `i % 0` in the auto branch. */
  lemma {:induction false} CombinationsFails(c: CharConfig, count: int, o: Oracle)
    ensures Combinations(c, count, o).Err? <==>
      && Iterations(count) > 0 && c.mode == Separate
      && (match c.distribution
          case CountSpecified(lo, hi) => lo > hi
          case Auto => |c.characters| == 0)
    ensures Combinations(c, count, o) == Err(EmptyRandRange) <==>
      Iterations(count) > 0 && c.mode == Separate && c.distribution.CountSpecified?
      && c.distribution.minChars > c.distribution.maxChars
  {
  }

  /** Together: every scene holds the whole list. */
  lemma {:induction false} TogetherScenes(c: CharConfig, count: int, o: Oracle)
    requires c.mode == Together
    ensures Combinations(c, count, o).Ok?
    ensures var g := Combinations(c, count, o).value;
      |g| == Iterations(count) && forall j :: 0 <= j < |g| ==> g[j] == c.characters
  {
  }

  /** Auto: scene j holds the single name at position j modulo the list length. */
  lemma {:induction false} AutoScenes(c: CharConfig, count: int, o: Oracle)
    requires c.mode == Separate && c.distribution == Auto && |c.characters| > 0
    ensures Combinations(c, count, o).Ok?
    ensures var g := Combinations(c, count, o).value;
      && |g| == Iterations(count)
      && (forall j :: 0 <= j < |g| ==> g[j] == [c.characters[j % |c.characters|]])
  {
    if Iterations(count) > 0 {
      assert Combinations(c, count, o) == Ok(Cycled(c.characters, Iterations(count)));
    }
  }

  /** Auto: the first len(characters) scenes name each character once, in
      list order. */
  lemma {:induction false} AutoFirstRound(c: CharConfig, count: int, o: Oracle, j: nat)
    requires c.mode == Separate && c.distribution == Auto
    requires j < |c.characters| && j < Iterations(count)
    ensures var g := Combinations(c, count, o).value;
      |g| == Iterations(count) && g[j] == [c.characters[j]]
  {
    AutoScenes(c, count, o);
    var g := Combinations(c, count, o).value;
    assert g[j] == [c.characters[j % |c.characters|]];
    ModBelow(j, |c.characters|);
  }

  lemma ModBelow(j: nat, n: nat)
    requires j < n
    ensures j % n == j
  {
  }

  /** Count_specified: scene j is grouping j, whose size lies between the
      bounds (capped by the list length) and whose names come from the list. */
  lemma {:induction false} CountSpecifiedScenes(c: CharConfig, count: int, o: Oracle, j: nat)
    requires c.mode == Separate && c.distribution.CountSpecified?
    requires c.distribution.minChars <= c.distribution.maxChars
    requires j < Iterations(count)
    ensures Combinations(c, count, o).Ok?
    ensures |Combinations(c, count, o).value| == Iterations(count)
    ensures var g := Combinations(c, count, o).value[j];
      var lo, hi := c.distribution.minChars, c.distribution.maxChars;
      && g == Group(c.characters, lo, hi, o, j)
      && |g| == Min(SceneSize(lo, hi, o, j), |c.characters|)
      && Min(lo, |c.characters|) <= |g| <= hi
      && multiset(g) <= multiset(c.characters)
  {
    var lo, hi := c.distribution.minChars, c.distribution.maxChars;
    assert Combinations(c, count, o) == Ok(Drawn(c.characters, lo, hi, o, Iterations(count)));
    DrawnAt(c.characters, lo, hi, o, Iterations(count), j);
    GroupWithin(c.characters, lo, hi, o, j);
  }
}
