/** Writing a scene specification back as `count|characters|actions|locations`
    text, and the round trip through `parse_input`: every configuration
    whose names and items survive the parser is recovered from its text. */
module SpecFormat {
  import opened Outcomes
  import opened Text
  import opened SpecParser
  import Catalog

  /** The separator of the mode: `+` together, `,` separate. */
  function ModeSeparator(m: Mode): char {
    if m == Together then '+' else ','
  }

  /** The character segment: an optional `[m]` or `[m-n]` prefix, then the
      names joined by the mode's separator. */
  function CharactersText(c: CharConfig): string {
    var names := Join([ModeSeparator(c.mode)], c.characters);
    match c.distribution
    case Auto => names
    case CountSpecified(lo, hi) =>
      PrefixText(CountPrefix(ShowNat(lo), if lo == hi then None else Some(ShowNat(hi)), names))
  }

  /** The whole specification line. */
  function InputText(cfg: Config): string {
    Join("|", [ShowInt(cfg.count), CharactersText(cfg.charConfig), Join(",", cfg.actions), Join(",", cfg.locations)])
  }

  /** A character name the parser hands back as written. */
  predicate PlainName(s: string) {
    s != [] && IsStripped(s) && '|' !in s && ',' !in s && '+' !in s && '\n' !in s && '[' !in s
  }

  /** An action or location the parser hands back as written. */
  predicate PlainItem(s: string) {
    s != [] && IsStripped(s) && '|' !in s && ',' !in s
  }

  /** A character configuration its text reproduces: plain names, not the
      lone `ALL`, and at least two names when they go together. */
  predicate WritableCharacters(c: CharConfig) {
    && |c.characters| >= 1 && c.characters != ["ALL"]
    && (forall i :: 0 <= i < |c.characters| ==> PlainName(c.characters[i]))
    && (c.mode == Together ==> |c.characters| >= 2)
  }

  /** An action or location list its text reproduces: plain items, not the
      lone `RANDOM`. */
  predicate WritableList(items: seq<string>) {
    |items| >= 1 && items != ["RANDOM"] && forall i :: 0 <= i < |items| ==> PlainItem(items[i])
  }

  /** Names that `split` and `strip` hand back unchanged in the given mode. */
  predicate PlainNames(names: seq<string>, mode: Mode) {
    forall i :: 0 <= i < |names| ==> IsStripped(names[i]) && '+' !in names[i] && ModeSeparator(mode) !in names[i]
  }

  /** Items that `split(',')` and `strip` hand back unchanged. */
  predicate PlainItems(items: seq<string>) {
    forall i :: 0 <= i < |items| ==> IsStripped(items[i]) && ',' !in items[i]
  }

  predicate Writable(cfg: Config) {
    WritableCharacters(cfg.charConfig) && WritableList(cfg.actions) && WritableList(cfg.locations)
  }

  // ----------------------------------------------------------------- lemmas

  lemma {:induction false} DigitsLack(s: string, c: char)
    requires AllDigits(s) && !IsDigit(c)
    ensures c !in s
  {
  }

  /** The joined names: non-empty, stripped, single-line, and not starting with `[`. */
  lemma {:induction false} NamesTextShape(c: CharConfig)
    requires WritableCharacters(c)
    ensures var names := Join([ModeSeparator(c.mode)], c.characters);
      && names != [] && IsStripped(names) && names[0] != '['
      && '\n' !in names && '|' !in names
  {
    var sep := ModeSeparator(c.mode);
    JoinEnds(sep, c.characters);
    JoinLacks(sep, c.characters, '\n');
    JoinLacks(sep, c.characters, '|');
    assert c.characters[0][0] in c.characters[0];
  }

  /** The character segment, read by `_parse_characters`, gives the configuration back. */
  lemma {:induction false} ParseCharactersText(a: Catalog.Agent, c: CharConfig)
    requires Catalog.Stocked(a) && WritableCharacters(c)
    ensures ParseCharacters(a, CharactersText(c)) == c
  {
    var sep := ModeSeparator(c.mode);
    var names := Join([sep], c.characters);
    NamesTextShape(c);
    assert CountSpec(CharactersText(c)) == (c.distribution, names) by {
      match c.distribution
      case Auto =>
      case CountSpecified(lo, hi) =>
        var p := CountPrefix(ShowNat(lo), if lo == hi then None else Some(ShowNat(hi)), names);
        MatchCountPrefixComplete(p, []);
        assert PrefixText(p) + [] == PrefixText(p);
        DigitsValueShowNat(lo);
        DigitsValueShowNat(hi);
    }
    if c.mode == Together {
      JoinHasSep(sep, c.characters);
    } else {
      JoinLacks(sep, c.characters, '+');
    }
    SplitJoin(c.characters, sep);
    StripAllStripped(c.characters);
  }

  /** Stripped names without `+` or the mode's separator, joined by that
      separator, with no count prefix in front: read back as those names (a
      sole `ALL` as every character key), in that mode, distributed `auto`. */
  lemma {:induction false} ParseNames(a: Catalog.Agent, names: seq<string>, mode: Mode)
    requires Catalog.Stocked(a) && |names| >= 1 && (mode == Together ==> |names| >= 2)
    requires PlainNames(names, mode)
    requires MatchCountPrefix(Join([ModeSeparator(mode)], names)).None?
    ensures ParseCharacters(a, Join([ModeSeparator(mode)], names))
      == CharConfig(if names == ["ALL"] then a.characters else names, mode, Auto)
  {
    var sep := ModeSeparator(mode);
    var text := Join([sep], names);
    assert CountSpec(text) == (Auto, text);
    if mode == Together {
      JoinHasSep(sep, names);
    } else {
      JoinLacks(sep, names, '+');
    }
    SplitJoin(names, sep);
    StripAllStripped(names);
    assert StripAll(Split(text, sep)) == names;
  }

  /** The character segment is stripped and has no `|`. */
  lemma {:induction false} CharactersTextShape(c: CharConfig)
    requires WritableCharacters(c)
    ensures var t := CharactersText(c); IsStripped(t) && '|' !in t
  {
    NamesTextShape(c);
    match c.distribution
    case Auto =>
    case CountSpecified(lo, hi) =>
      var names := Join([ModeSeparator(c.mode)], c.characters);
      var p := CountPrefix(ShowNat(lo), if lo == hi then None else Some(ShowNat(hi)), names);
      DigitsLack(ShowNat(lo), '|');
      DigitsLack(ShowNat(hi), '|');
      var t := PrefixText(p);
      assert t[|t| - 1] == names[|names| - 1];
  }

  /** Stripped items without `,`, joined by `,`, read back: the items, or
      every key for a sole `RANDOM`. */
  lemma {:induction false} ParseItems(items: seq<string>, allKeys: seq<string>)
    requires |allKeys| >= 1 && |items| >= 1 && PlainItems(items)
    ensures ParseList(Join(",", items), allKeys) == if items == ["RANDOM"] then allKeys else items
  {
    SplitJoin(items, ',');
    StripAllStripped(items);
  }

  /** An item list, read back, is the list. */
  lemma {:induction false} ParseListText(items: seq<string>, allKeys: seq<string>)
    requires |allKeys| >= 1 && WritableList(items)
    ensures ParseList(Join(",", items), allKeys) == items
  {
    ParseItems(items, allKeys);
  }

  lemma {:induction false} ListTextShape(items: seq<string>)
    requires WritableList(items)
    ensures var t := Join(",", items); IsStripped(t) && '|' !in t
  {
    JoinEnds(',', items);
    JoinLacks(',', items, '|');
  }

  lemma {:induction false} CountTextShape(n: int)
    ensures var t := ShowInt(n); IsStripped(t) && '|' !in t
  {
    var d := if n < 0 then ShowNat(-n) else ShowNat(n);
    DigitsLack(d, '|');
    assert ShowInt(n)[|ShowInt(n)| - 1] == d[|d| - 1];
  }

  /** Four stripped segments without `|`, joined by `|`, split back apart. */
  lemma {:induction false} FourSegments(s0: string, s1: string, s2: string, s3: string)
    requires IsStripped(s0) && IsStripped(s1) && IsStripped(s2) && IsStripped(s3)
    requires '|' !in s0 && '|' !in s1 && '|' !in s2 && '|' !in s3
    ensures StripAll(Split(Join("|", [s0, s1, s2, s3]), '|')) == [s0, s1, s2, s3]
  {
    var segments := [s0, s1, s2, s3];
    assert forall i :: 0 <= i < 4 ==> '|' !in segments[i] && IsStripped(segments[i]);
    SplitJoin(segments, '|');
    StripAllStripped(segments);
  }

  /** `parse_input` on four stripped segments without `|`: the count read by
      `int()`, then each segment read on its own. */
  lemma {:induction false} ParseSegments(a: Catalog.Agent, s0: string, s1: string, s2: string, s3: string)
    requires Catalog.Stocked(a)
    requires IsStripped(s0) && IsStripped(s1) && IsStripped(s2) && IsStripped(s3)
    requires '|' !in s0 && '|' !in s1 && '|' !in s2 && '|' !in s3
    ensures ParseInput(a, Join("|", [s0, s1, s2, s3]))
      == if ParseInt(s0).None? then Err(NotAnInteger)
         else Ok(Config(ParseInt(s0).value, ParseCharacters(a, s1), ParseList(s2, a.actionKeys), ParseList(s3, a.locationKeys)))
  {
    FourSegments(s0, s1, s2, s3);
  }

  /** The specification line splits back into its four segments. */
  lemma {:induction false} InputSegments(cfg: Config)
    requires Writable(cfg)
    ensures StripAll(Split(InputText(cfg), '|'))
      == [ShowInt(cfg.count), CharactersText(cfg.charConfig), Join(",", cfg.actions), Join(",", cfg.locations)]
  {
    CountTextShape(cfg.count);
    CharactersTextShape(cfg.charConfig);
    ListTextShape(cfg.actions);
    ListTextShape(cfg.locations);
    FourSegments(ShowInt(cfg.count), CharactersText(cfg.charConfig), Join(",", cfg.actions), Join(",", cfg.locations));
  }

  /** `parse_input` inverts `InputText` on every writable configuration. */
  lemma {:induction false} ParseInputText(a: Catalog.Agent, cfg: Config)
    requires Catalog.Stocked(a) && Writable(cfg)
    ensures ParseInput(a, InputText(cfg)) == Ok(cfg)
  {
    InputSegments(cfg);
    ParseShowInt(cfg.count);
    ParseCharactersText(a, cfg.charConfig);
    ParseListText(cfg.actions, a.actionKeys);
    ParseListText(cfg.locations, a.locationKeys);
  }
}
