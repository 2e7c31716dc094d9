/** The parser on concrete lines, and on the edge cases of its syntax. */
module SpecExamples {
  import opened Outcomes
  import opened Text
  import opened SpecParser
  import opened SpecFormat
  import Catalog

  lemma {:induction false} JoinFour(sep: string, s0: string, s1: string, s2: string, s3: string)
    ensures Join(sep, [s0, s1, s2, s3]) == s0 + sep + s1 + sep + s2 + sep + s3
  {
    var parts := [s0, s1, s2, s3];
    assert parts[1..] == [s1, s2, s3];
    assert parts[1..][1..] == [s2, s3];
    assert parts[1..][1..][1..] == [s3];
    assert Join(sep, [s2, s3]) == s2 + sep + s3;
    assert Join(sep, [s1, s2, s3]) == s1 + sep + (s2 + sep + s3);
    assert Join(sep, parts) == s0 + sep + (s1 + sep + (s2 + sep + s3));
  }

  lemma ExampleLine()
    ensures Join("|", ["2", "Orange+Pigeon", "playing,eating", "park"]) == "2|Orange+Pigeon|playing,eating|park"
  {
    JoinFour("|", "2", "Orange+Pigeon", "playing,eating", "park");
    assert "2" + "|" + "Orange+Pigeon" == "2|Orange+Pigeon";
    assert "2|Orange+Pigeon" + "|" + "playing,eating" == "2|Orange+Pigeon|playing,eating";
  }

  lemma ExampleSegments()
    ensures IsStripped("2") && IsStripped("Orange+Pigeon") && IsStripped("playing,eating") && IsStripped("park")
    ensures '|' !in "2" && '|' !in "Orange+Pigeon" && '|' !in "playing,eating" && '|' !in "park"
  {
  }

  lemma ExampleNames()
    ensures Join("+", ["Orange", "Pigeon"]) == "Orange+Pigeon"
    ensures MatchCountPrefix("Orange+Pigeon").None?
    ensures PlainNames(["Orange", "Pigeon"], Together)
  {
  }

  lemma ExampleItems()
    ensures Join(",", ["playing", "eating"]) == "playing,eating"
    ensures PlainItems(["playing", "eating"]) && PlainItems(["park"])
  {
  }

  /** A together line with two actions, `2|Orange+Pigeon|playing,eating|park`. */
  lemma {:induction false} TogetherExample(a: Catalog.Agent)
    requires Catalog.Stocked(a)
    ensures ParseInput(a, "2|Orange+Pigeon|playing,eating|park")
      == Ok(Config(2, CharConfig(["Orange", "Pigeon"], Together, Auto), ["playing", "eating"], ["park"]))
  {
    ExampleLine();
    ExampleSegments();
    ParseSegments(a, "2", "Orange+Pigeon", "playing,eating", "park");
    ParseShowInt(2);
    assert ShowInt(2) == "2";
    ExampleNames();
    ParseNames(a, ["Orange", "Pigeon"], Together);
    ExampleItems();
    ParseItems(["playing", "eating"], a.actionKeys);
    ParseItems(["park"], a.locationKeys);
  }

  /** A count prefix with nothing after it does not match: `[2]` is a name. */
  lemma {:induction false} BarePrefixIsName(a: Catalog.Agent)
    requires Catalog.Stocked(a)
    ensures ParseCharacters(a, "[2]") == CharConfig(["[2]"], Separate, Auto)
  {
    assert "[2]"[1..] == "2]";
    assert DigitRun("2]") == 1;
    assert MatchBody("2", None, "") == None;
    assert MatchCountPrefix("[2]") == None;
    assert PlainNames(["[2]"], Separate);
    ParseNames(a, ["[2]"], Separate);
  }

  /** A sole `ALL` stands for every character theme key. */
  lemma {:induction false} AllExpands(a: Catalog.Agent)
    requires Catalog.Stocked(a)
    ensures ParseCharacters(a, "ALL") == CharConfig(a.characters, Separate, Auto)
  {
    assert PlainNames(["ALL"], Separate);
    ParseNames(a, ["ALL"], Separate);
  }

  /** `ALL` is expanded only on its own; beside another name it is a name. */
  lemma {:induction false} AllBesideNameStays(a: Catalog.Agent)
    requires Catalog.Stocked(a)
    ensures ParseCharacters(a, "ALL+Orange") == CharConfig(["ALL", "Orange"], Together, Auto)
  {
    assert Join("+", ["ALL", "Orange"]) == "ALL+Orange";
    assert PlainNames(["ALL", "Orange"], Together);
    ParseNames(a, ["ALL", "Orange"], Together);
  }

  /** A sole `RANDOM` stands for every key. */
  lemma {:induction false} RandomExpands(keys: seq<string>)
    requires |keys| >= 1
    ensures ParseList("RANDOM", keys) == keys
  {
    assert PlainItems(["RANDOM"]);
    ParseItems(["RANDOM"], keys);
  }

  /** An empty item between two commas is kept. */
  lemma {:induction false} EmptyItemKept(keys: seq<string>)
    requires |keys| >= 1
    ensures ParseList("a,,b", keys) == ["a", "", "b"]
  {
    assert Join(",", ["a", "", "b"]) == "a,,b";
    assert PlainItems(["a", "", "b"]);
    ParseItems(["a", "", "b"], keys);
  }

  /** Three segments are refused. */
  lemma {:induction false} TooFewSegments(a: Catalog.Agent)
    requires Catalog.Stocked(a)
    ensures ParseInput(a, "2|Orange|park") == Err(WrongSegmentCount)
  {
    assert Join("|", ["2", "Orange", "park"]) == "2|Orange|park";
    SplitJoin(["2", "Orange", "park"], '|');
  }

  lemma NotIntegerLine()
    ensures Join("|", ["two", "Orange", "playing", "park"]) == "two|Orange|playing|park"
  {
    JoinFour("|", "two", "Orange", "playing", "park");
    assert "two" + "|" + "Orange" == "two|Orange";
  }

  lemma NotIntegerSegments()
    ensures IsStripped("two") && IsStripped("Orange") && IsStripped("playing") && IsStripped("park")
    ensures '|' !in "two" && '|' !in "Orange" && '|' !in "playing" && '|' !in "park"
    ensures !IsIntLiteral("two")
  {
  }

  /** A count that is not an integer is refused. */
  lemma {:induction false} CountNotInteger(a: Catalog.Agent)
    requires Catalog.Stocked(a)
    ensures ParseInput(a, "two|Orange|playing|park") == Err(NotAnInteger)
  {
    NotIntegerLine();
    NotIntegerSegments();
    ParseSegments(a, "two", "Orange", "playing", "park");
  }

  lemma ZeroLine()
    ensures Join("|", ["1", "[0]Orange", "playing", "park"]) == "1|[0]Orange|playing|park"
  {
    JoinFour("|", "1", "[0]Orange", "playing", "park");
    assert "1" + "|" + "[0]Orange" == "1|[0]Orange";
  }

  lemma ZeroSegments()
    ensures IsStripped("1") && IsStripped("[0]Orange") && IsStripped("playing") && IsStripped("park")
    ensures '|' !in "1" && '|' !in "[0]Orange" && '|' !in "playing" && '|' !in "park"
  {
  }

  lemma ZeroPrefix()
    ensures CharactersText(CharConfig(["Orange"], Separate, CountSpecified(0, 0))) == "[0]Orange"
  {
    assert ShowNat(0) == "0";
    assert PrefixText(CountPrefix("0", None, "Orange")) == ['['] + ("0" + ([']'] + "Orange"));
  }

  lemma ZeroWritable()
    ensures WritableCharacters(CharConfig(["Orange"], Separate, CountSpecified(0, 0)))
    ensures PlainItems(["playing"]) && PlainItems(["park"])
  {
    assert PlainName("Orange");
  }

  /** `[0]` asks for scenes of no characters at all. */
  lemma {:induction false} ZeroCountExample(a: Catalog.Agent)
    requires Catalog.Stocked(a)
    ensures ParseInput(a, "1|[0]Orange|playing|park")
      == Ok(Config(1, CharConfig(["Orange"], Separate, CountSpecified(0, 0)), ["playing"], ["park"]))
  {
    ZeroLine();
    ZeroSegments();
    ParseSegments(a, "1", "[0]Orange", "playing", "park");
    ParseShowInt(1);
    assert ShowInt(1) == "1";
    ZeroPrefix();
    ZeroWritable();
    ParseCharactersText(a, CharConfig(["Orange"], Separate, CountSpecified(0, 0)));
    ParseItems(["playing"], a.actionKeys);
    ParseItems(["park"], a.locationKeys);
  }
}
