/** The scene-specification parser of `PromptAgent`: `parse_input` and
    `_parse_characters` (prompt_agent.py:159-222). The input format is
    `count|characters|actions|locations`. */
module SpecParser {
  import opened Outcomes
  import opened Text
  import Catalog

  /** 'together' (names joined by `+`) or 'separate' (names joined by `,`). */
  datatype Mode = Together | Separate

  /** 'auto' (no `[m]`/`[m-n]` prefix) or 'count_specified' with min/max. */
  datatype Distribution = Auto | CountSpecified(minChars: nat, maxChars: nat)

  /** The `char_config` dictionary. */
  datatype CharConfig = CharConfig(characters: seq<string>, mode: Mode, distribution: Distribution)

  /** The dictionary returned by `parse_input`. */
  datatype Config = Config(count: int, charConfig: CharConfig, actions: seq<string>, locations: seq<string>)

  // ---------------------------------------------------------------- integers

  predicate IsDigit(c: char) { '0' <= c <= '9' }

  predicate AllDigits(s: string) { forall i :: 0 <= i < |s| ==> IsDigit(s[i]) }

  function DigitsValue(s: string): nat
    requires AllDigits(s)
    decreases |s|
  {
    if s == [] then 0 else DigitsValue(s[..|s| - 1]) * 10 + (s[|s| - 1] as int - '0' as int)
  }

  function DigitChar(d: nat): char
    requires d < 10
  {
    ('0' as int + d) as char
  }

  /** Decimal text of a natural number, without leading zeros. */
  function ShowNat(n: nat): (r: string)
    ensures |r| >= 1 && AllDigits(r)
  {
    if n < 10 then [DigitChar(n)] else ShowNat(n / 10) + [DigitChar(n % 10)]
  }

  function ShowInt(n: int): (r: string)
    ensures |r| >= 1
  {
    if n < 0 then "-" + ShowNat(-n) else ShowNat(n)
  }

  lemma {:induction false} DigitsValueShowNat(n: nat)
    ensures DigitsValue(ShowNat(n)) == n
  {
    if n >= 10 {
      var s := ShowNat(n);
      assert s[..|s| - 1] == ShowNat(n / 10);
      DigitsValueShowNat(n / 10);
    }
  }

  /** What `int()` accepts here: an optional sign, then at least one ASCII digit. */
  predicate IsIntLiteral(s: string) {
    |s| >= 1 && (if s[0] == '+' || s[0] == '-' then |s| >= 2 && AllDigits(s[1..]) else AllDigits(s))
  }

  /** `int(s)`, or None where Python raises ValueError. */
  function ParseInt(s: string): (r: Option<int>)
    ensures r.Some? <==> IsIntLiteral(s)
  {
    if |s| >= 2 && (s[0] == '+' || s[0] == '-') && AllDigits(s[1..]) then
      var magnitude: int := DigitsValue(s[1..]);
      Some(if s[0] == '-' then -magnitude else magnitude)
    else if |s| >= 1 && AllDigits(s) then
      Some(DigitsValue(s))
    else
      None
  }

  /** `int(str(n)) == n` */
  lemma {:induction false} ParseShowInt(n: int)
    ensures ParseInt(ShowInt(n)) == Some(n)
  {
    if n < 0 {
      DigitsValueShowNat(-n);
      assert ShowInt(n)[1..] == ShowNat(-n);
    } else {
      DigitsValueShowNat(n);
    }
  }

  // --------------------------------------------------- the count prefix regex

  /** The three groups of a match of `\[(\d+)(?:-(\d+))?\](.+)`. */
  datatype CountPrefix = CountPrefix(minDigits: string, maxDigits: Option<string>, body: string)

  predicate WellFormedPrefix(p: CountPrefix) {
    && |p.minDigits| >= 1 && AllDigits(p.minDigits)
    && (p.maxDigits.Some? ==> |p.maxDigits.value| >= 1 && AllDigits(p.maxDigits.value))
    && |p.body| >= 1 && '\n' !in p.body
  }

  /** The text a match covers. */
  function PrefixText(p: CountPrefix): string {
    ['['] + (p.minDigits + AfterMin(p))
  }

  /** The text a match covers after its first group. */
  function AfterMin(p: CountPrefix): string {
    if p.maxDigits.Some? then ['-'] + (p.maxDigits.value + ([']'] + p.body)) else [']'] + p.body
  }

  /** Length of the longest all-digit prefix. */
  function DigitRun(s: string): (n: nat)
    ensures n <= |s| && AllDigits(s[..n]) && (n < |s| ==> !IsDigit(s[n]))
    decreases |s|
  {
    if s != [] && IsDigit(s[0]) then
      var m := DigitRun(s[1..]);
      assert s[..m + 1] == [s[0]] + s[1..][..m];
      m + 1
    else 0
  }

  /** Length of the longest prefix without a newline (what `.+` can span). */
  function LineRun(s: string): (n: nat)
    ensures n <= |s| && '\n' !in s[..n] && (n < |s| ==> s[n] == '\n')
    decreases |s|
  {
    if s != [] && s[0] != '\n' then
      var m := LineRun(s[1..]);
      assert s[..m + 1] == [s[0]] + s[1..][..m];
      m + 1
    else 0
  }

  function MatchBody(minDigits: string, maxDigits: Option<string>, rest: string): (r: Option<CountPrefix>)
    ensures r.Some? ==> r.value.body <= rest && |r.value.body| >= 1 && '\n' !in r.value.body
    ensures r.Some? ==> |r.value.body| == |rest| || rest[|r.value.body|] == '\n'
    ensures r.Some? ==> r.value.minDigits == minDigits && r.value.maxDigits == maxDigits
    ensures r.None? <==> rest == [] || rest[0] == '\n'
  {
    var n := LineRun(rest);
    if n == 0 then None else Some(CountPrefix(minDigits, maxDigits, rest[..n]))
  }

  /** `re.match(r'\[(\d+)(?:-(\d+))?\](.+)', s)`: anchored at the start of `s`;
      the body is the longest newline-free run after `]` and must be non-empty. */
  function MatchCountPrefix(s: string): Option<CountPrefix> {
    if s == [] || s[0] != '[' then None else MatchMin(s[1..])
  }

  /** The part of the match after `[`. */
  function MatchMin(t: string): Option<CountPrefix> {
    var n1 := DigitRun(t);
    if n1 == 0 || n1 == |t| then None
    else if t[n1] == ']' then MatchBody(t[..n1], None, t[n1 + 1..])
    else if t[n1] == '-' then MatchMax(t[..n1], t[n1 + 1..])
    else None
  }

  /** The part of the match after `-`. */
  function MatchMax(minDigits: string, u: string): Option<CountPrefix> {
    var n2 := DigitRun(u);
    if n2 == 0 || n2 == |u| || u[n2] != ']' then None
    else MatchBody(minDigits, Some(u[..n2]), u[n2 + 1..])
  }

  /** `text` is a prefix of `s` that ends where `s` does or at a newline. */
  predicate Covers(s: string, text: string) {
    text <= s && (|text| == |s| || s[|text|] == '\n')
  }

  /** Covering extends by one character to the left. */
  lemma {:induction false} CoversAfter(s: string, n: nat, text: string)
    requires n < |s| && Covers(s[n + 1..], text)
    ensures Covers(s, s[..n] + ([s[n]] + text))
  {
    var w := s[..n] + ([s[n]] + text);
    assert |w| == n + 1 + |text|;
    forall i | 0 <= i < |w| ensures w[i] == s[i] {
      if i > n {
        assert w[i] == text[i - n - 1] == s[n + 1..][i - n - 1];
      }
    }
    if |w| < |s| {
      assert s[|w|] == s[n + 1..][|text|];
    }
  }

  /** What the part after `-` covers: `max]body`. */
  lemma {:induction false} MatchMaxCovers(minDigits: string, u: string, p: CountPrefix)
    requires MatchMax(minDigits, u) == Some(p)
    ensures p.maxDigits.Some? && Covers(u, p.maxDigits.value + ([']'] + p.body))
  {
    var n2 := DigitRun(u);
    assert Covers(u[n2 + 1..], p.body);
    CoversAfter(u, n2, p.body);
  }

  /** What the part after `[` covers: `min]body` or `min-max]body`. */
  lemma {:induction false} MatchMinCovers(t: string, p: CountPrefix)
    requires MatchMin(t) == Some(p)
    ensures Covers(t, p.minDigits + AfterMin(p))
  {
    var n1 := DigitRun(t);
    if t[n1] == ']' {
      assert MatchBody(t[..n1], None, t[n1 + 1..]) == Some(p);
      assert Covers(t[n1 + 1..], p.body);
      CoversAfter(t, n1, p.body);
    } else {
      assert MatchMax(t[..n1], t[n1 + 1..]) == Some(p);
      MatchMaxCovers(t[..n1], t[n1 + 1..], p);
      CoversAfter(t, n1, p.maxDigits.value + ([']'] + p.body));
    }
  }

  /** A match covers a prefix of `s` that ends at the end of `s` or at a newline,
      and its groups are well formed. */
  lemma {:induction false} MatchCountPrefixSound(s: string)
    requires MatchCountPrefix(s).Some?
    ensures WellFormedPrefix(MatchCountPrefix(s).value)
    ensures Covers(s, PrefixText(MatchCountPrefix(s).value))
  {
    var p := MatchCountPrefix(s).value;
    MatchMinCovers(s[1..], p);
    CoversAfter(s, 0, p.minDigits + AfterMin(p));
    assert s[..0] + ([s[0]] + (p.minDigits + AfterMin(p))) == PrefixText(p);
  }

  lemma {:induction false} DigitRunStops(d: string, rest: string)
    requires AllDigits(d) && (rest == [] || !IsDigit(rest[0]))
    ensures DigitRun(d + rest) == |d|
    decreases |d|
  {
    if d != [] {
      assert (d + rest)[1..] == d[1..] + rest;
      DigitRunStops(d[1..], rest);
    }
  }

  lemma {:induction false} LineRunStops(b: string, tail: string)
    requires '\n' !in b && (tail == [] || tail[0] == '\n')
    ensures LineRun(b + tail) == |b|
    decreases |b|
  {
    if b != [] {
      assert (b + tail)[1..] == b[1..] + tail;
      LineRunStops(b[1..], tail);
    }
  }

  lemma {:induction false} MatchBodyComplete(minDigits: string, maxDigits: Option<string>, body: string, tail: string)
    requires |body| >= 1 && '\n' !in body && (tail == [] || tail[0] == '\n')
    ensures MatchBody(minDigits, maxDigits, body + tail) == Some(CountPrefix(minDigits, maxDigits, body))
  {
    LineRunStops(body, tail);
    assert (body + tail)[..|body|] == body;
  }

  lemma {:induction false} MatchMaxComplete(minDigits: string, maxDigits: string, body: string, tail: string)
    requires |maxDigits| >= 1 && AllDigits(maxDigits)
    requires |body| >= 1 && '\n' !in body && (tail == [] || tail[0] == '\n')
    ensures MatchMax(minDigits, maxDigits + ([']'] + (body + tail))) == Some(CountPrefix(minDigits, Some(maxDigits), body))
  {
    Around(maxDigits, ']', body + tail);
    DigitRunStops(maxDigits, [']'] + (body + tail));
    MatchBodyComplete(minDigits, Some(maxDigits), body, tail);
  }

  /** Every well-formed prefix, followed by nothing or by a newline, is matched
      with exactly its own groups. */
  lemma {:induction false} MatchCountPrefixComplete(p: CountPrefix, tail: string)
    requires WellFormedPrefix(p) && (tail == [] || tail[0] == '\n')
    ensures MatchCountPrefix(PrefixText(p) + tail) == Some(p)
  {
    if p.maxDigits.None? {
      MatchShortComplete(p, tail);
    } else {
      MatchRangeComplete(p, tail);
    }
  }

  lemma {:induction false} Around(a: string, c: char, b: string)
    ensures var s := a + ([c] + b);
      && s[..|a|] == a && s[|a|] == c && s[|a| + 1..] == b
  {
  }

  lemma {:induction false} MatchMinShortComplete(minDigits: string, body: string, tail: string)
    requires |minDigits| >= 1 && AllDigits(minDigits)
    requires |body| >= 1 && '\n' !in body && (tail == [] || tail[0] == '\n')
    ensures MatchMin(minDigits + ([']'] + (body + tail))) == Some(CountPrefix(minDigits, None, body))
  {
    Around(minDigits, ']', body + tail);
    DigitRunStops(minDigits, [']'] + (body + tail));
    MatchBodyComplete(minDigits, None, body, tail);
  }

  lemma {:induction false} MatchShortComplete(p: CountPrefix, tail: string)
    requires WellFormedPrefix(p) && (tail == [] || tail[0] == '\n') && p.maxDigits.None?
    ensures MatchCountPrefix(PrefixText(p) + tail) == Some(p)
  {
    var t := p.minDigits + ([']'] + (p.body + tail));
    assert PrefixText(p) + tail == ['['] + t;
    assert (['['] + t)[1..] == t;
    MatchMinShortComplete(p.minDigits, p.body, tail);
  }

  lemma {:induction false} MatchMinRangeComplete(minDigits: string, maxDigits: string, body: string, tail: string)
    requires |minDigits| >= 1 && AllDigits(minDigits) && |maxDigits| >= 1 && AllDigits(maxDigits)
    requires |body| >= 1 && '\n' !in body && (tail == [] || tail[0] == '\n')
    ensures MatchMin(minDigits + (['-'] + (maxDigits + ([']'] + (body + tail)))))
         == Some(CountPrefix(minDigits, Some(maxDigits), body))
  {
    var u := maxDigits + ([']'] + (body + tail));
    Around(minDigits, '-', u);
    DigitRunStops(minDigits, ['-'] + u);
    MatchMaxComplete(minDigits, maxDigits, body, tail);
  }

  lemma {:induction false} MatchRangeComplete(p: CountPrefix, tail: string)
    requires WellFormedPrefix(p) && (tail == [] || tail[0] == '\n') && p.maxDigits.Some?
    ensures MatchCountPrefix(PrefixText(p) + tail) == Some(p)
  {
    var t := p.minDigits + (['-'] + (p.maxDigits.value + ([']'] + (p.body + tail))));
    assert PrefixText(p) + tail == ['['] + t;
    assert (['['] + t)[1..] == t;
    MatchMinRangeComplete(p.minDigits, p.maxDigits.value, p.body, tail);
  }

  // ------------------------------------------------------------- characters

  /** The distribution a character segment asks for, and the text that holds its names. */
  function CountSpec(s: string): (r: (Distribution, string))
    ensures r.0.Auto? <==> MatchCountPrefix(s).None?
  {
    match MatchCountPrefix(s)
    case Some(p) =>
      var lo := DigitsValue(p.minDigits);
      var hi := if p.maxDigits.Some? then DigitsValue(p.maxDigits.value) else lo;
      (CountSpecified(lo, hi), p.body)
    case None => (Auto, s)
  }

  /** `_parse_characters` (prompt_agent.py:190-222). */
  function ParseCharacters(a: Catalog.Agent, s: string): (c: CharConfig)
    requires Catalog.Stocked(a)
    ensures |c.characters| >= 1
  {
    var (distribution, part) := CountSpec(s);
    var mode := if '+' in part then Together else Separate;
    var names := StripAll(Split(part, if mode == Together then '+' else ','));
    CharConfig(if names == ["ALL"] then a.characters else names, mode, distribution)
  }

  // ------------------------------------------------------------ whole input

  /** The comma-separated actions or locations, with a sole `RANDOM` expanded
      to every template key (prompt_agent.py:174-181). */
  function ParseList(s: string, allKeys: seq<string>): (r: seq<string>)
    requires |allKeys| >= 1
    ensures |r| >= 1
  {
    var items := StripAll(Split(s, ','));
    if items == ["RANDOM"] then allKeys else items
  }

  /** `parse_input` (prompt_agent.py:159-188); a raised ValueError is an Err. */
  function ParseInput(a: Catalog.Agent, input: string): (r: Result<Config>)
    requires Catalog.Stocked(a)
    ensures r.Ok? ==> |r.value.actions| >= 1 && |r.value.locations| >= 1
    ensures r.Ok? ==> |r.value.charConfig.characters| >= 1
  {
    var parts := StripAll(Split(input, '|'));
    if |parts| != 4 then Err(WrongSegmentCount)
    else
      match ParseInt(parts[0])
      case None => Err(NotAnInteger)
      case Some(count) =>
        Ok(Config(count, ParseCharacters(a, parts[1]),
                  ParseList(parts[2], a.actionKeys),
                  ParseList(parts[3], a.locationKeys)))
  }
}
