/** The whole pipeline, and the renderer, on the agent's own catalogs and
    a handful of concrete lines. */
module BatchExamples {
  import opened Outcomes
  import opened Text
  import opened Catalog
  import opened SpecParser
  import opened SpecExamples
  import opened Combinations
  import opened Renderer
  import opened Orchestrator
  import opened ExampleText

  lemma DefaultKnows()
    ensures "Orange" in Default.characters && "Pigeon" in Default.characters
    ensures "Orca" in Default.characters
  {
  }

  /** Two known names are spoken "a and b". */
  lemma {:induction false} PairPrompt(t: Agent, a: string, b: string, action: string, location: string)
    requires a in t.characters && b in t.characters
    ensures GeneratePrompt(t, [a, b], action, location)
      == Ok(a + " and " + b + " " + Lookup(t.actions, action) + " in " + Lookup(t.locations, location))
  {
    KnownNamesPrompt(t, [a, b], action, location);
  }

  /** The together line: the same pair in both scenes, the actions in turn. */
  lemma {:induction false} PairScenes(t: Agent, o: Oracle)
    requires "Orange" in t.characters && "Pigeon" in t.characters
    ensures Scenes(t, Config(2, CharConfig(["Orange", "Pigeon"], Together, Auto), ["playing", "eating"], ["park"]), o)
      == Ok(["Orange and Pigeon " + Lookup(t.actions, "playing") + " in " + Lookup(t.locations, "park"),
             "Orange and Pigeon " + Lookup(t.actions, "eating") + " in " + Lookup(t.locations, "park")])
  {
    var pair := ["Orange", "Pigeon"];
    var c := CharConfig(pair, Together, Auto);
    var actions, locations := ["playing", "eating"], ["park"];
    Combinations.TogetherScenes(c, 2, o);
    var groups := Combinations.Combinations(c, 2, o).value;
    assert groups == [pair, pair];
    PairPrompt(t, "Orange", "Pigeon", "playing", "park");
    PairPrompt(t, "Orange", "Pigeon", "eating", "park");
    assert 0 % 2 == 0 && 1 % 2 == 1 && 0 % 1 == 0 && 1 % 1 == 0;
    var p0 := "Orange and Pigeon " + Lookup(t.actions, "playing") + " in " + Lookup(t.locations, "park");
    var p1 := "Orange and Pigeon " + Lookup(t.actions, "eating") + " in " + Lookup(t.locations, "park");
    assert "Orange" + " and " + "Pigeon" + " " == "Orange and Pigeon ";
    assert GeneratePrompt(t, pair, "playing", "park") == Ok(p0);
    assert GeneratePrompt(t, pair, "eating", "park") == Ok(p1);
    PromptsShape(t, groups, actions, locations, 2);
    var r := Prompts(t, groups, actions, locations, 2);
    assert r.value[0] == p0 && r.value[1] == p1;
    assert r.value == [p0, p1];
  }

  lemma DefaultLookups()
    ensures Lookup(Default.actions, "playing") == "playing" && Lookup(Default.actions, "eating") == "eating"
    ensures Lookup(Default.locations, "park") == "park"
  {
    ActionDisplay("playing");
    ActionDisplay("eating");
    LocationDisplay("park");
  }

  /** `2|Orange+Pigeon|playing,eating|park` gives one prompt per action,
      whatever the random draws. */
  lemma {:induction false} TogetherBatch(o: Oracle)
    ensures GenerateAll(Default, "2|Orange+Pigeon|playing,eating|park", o)
      == Ok(["Orange and Pigeon playing in park", "Orange and Pigeon eating in park"])
  {
    DefaultStocked();
    TogetherExample(Default);
    DefaultKnows();
    PairScenes(Default, o);
    DefaultLookups();
    PairSentences();
  }

  // ------------------------------------------------------------ renderer

  /** A known single character gets the location template: "mountain" is
      shown as "snowy mountain landscape". */
  lemma {:induction false} SingleExample()
    ensures GeneratePrompt(Default, ["Orca"], "standing", "mountain") == Ok("Orca standing in snowy mountain landscape")
  {
    DefaultKnows();
    ActionDisplay("standing");
    LocationDisplay("mountain");
    MountainSentence();
  }

  lemma DefaultKnowsFish()
    ensures "Fish" in Default.characters
  {
  }

  /** Three known names are listed with a serial comma. */
  lemma {:induction false} TrioPrompt(t: Agent, a: string, b: string, c: string, action: string, location: string)
    requires a in t.characters && b in t.characters && c in t.characters
    ensures GeneratePrompt(t, [a, b, c], action, location)
      == Ok(a + ", " + b + ", and " + c + " " + Lookup(t.actions, action) + " in " + Lookup(t.locations, location))
  {
    var names := [a, b, c];
    KnownNamesPrompt(t, names, action, location);
    assert names[1..] == [b, c];
    assert Serial(names) == a + ", " + (b + ", and " + c);
    assert a + ", " + (b + ", and " + c) == a + ", " + b + ", and " + c;
  }

  lemma {:induction false} TrioExample()
    ensures GeneratePrompt(Default, ["Orange", "Pigeon", "Fish"], "playing", "park")
      == Ok("Orange, Pigeon, and Fish playing in park")
  {
    DefaultKnows();
    DefaultKnowsFish();
    TrioPrompt(Default, "Orange", "Pigeon", "Fish", "playing", "park");
    DefaultLookups();
    TrioSentence();
  }

  lemma DefaultLacksBob()
    ensures "Bob" !in Default.characters
  {
    assert forall i :: 0 <= i < |CharacterThemes| ==> CharacterThemes[i][0] != 'B' || |CharacterThemes[i]| > 3;
  }

  /** With an unknown name the words stay raw: "mountain" is not expanded. */
  lemma {:induction false} UnknownExample()
    ensures GeneratePrompt(Default, ["Bob", "Orange"], "flying", "mountain") == Ok("Bob and Orange flying in mountain")
  {
    DefaultLacksBob();
    assert "Bob" in ["Bob", "Orange"];
    UnknownNamePrompt(Default, ["Bob", "Orange"], "flying", "mountain");
    assert Join(" and ", ["Bob", "Orange"]) == "Bob" + " and " + "Orange";
    UnknownSentence();
  }

  // ------------------------------------------------------------ no prompts

  /** `1|[0]Orange|playing|park` draws an empty grouping, on which
      `generate_prompt` raises, so the caller gets no prompts. */
  lemma {:induction false} ZeroCountBatch(o: Oracle)
    ensures GenerateAll(Default, "1|[0]Orange|playing|park", o).Err?
    ensures Delivered(GenerateAll(Default, "1|[0]Orange|playing|park", o)) == []
  {
    DefaultStocked();
    ZeroCountExample(Default);
    var c := CharConfig(["Orange"], Separate, CountSpecified(0, 0));
    var cfg := Config(1, c, ["playing"], ["park"]);
    CountSpecifiedScenes(c, 1, o, 0);
    EmptyGroupingYieldsNothing(Default, cfg, o, 0);
  }

  /** A line without four segments yields no prompts. */
  lemma {:induction false} ShortLineBatch(o: Oracle)
    ensures Delivered(GenerateAll(Default, "2|Orange|park", o)) == []
  {
    DefaultStocked();
    TooFewSegments(Default);
  }
}
