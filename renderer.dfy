/** `generate_prompt` and its two helpers (prompt_agent.py:267-303): one
    sentence per scene, "{names} {action} in {location}". */
module Renderer {
  import opened Outcomes
  import opened Text
  import opened Catalog

  /** The sentence every prompt has: "{subject} {action} in {location}". */
  function Sentence(subject: string, action: string, location: string): string {
    subject + " " + action + " in " + location
  }

  /** `_generate_single_character_prompt` (prompt_agent.py:274-284): templates
      only for a known character; an unknown one keeps the raw words. */
  function SingleCharacterPrompt(t: Agent, character: string, action: string, location: string): string {
    if character !in t.characters then Sentence(character, action, location)
    else Sentence(character, Lookup(t.actions, action), Lookup(t.locations, location))
  }

  /** `all(char in self.character_themes for char in characters)` */
  predicate AllKnown(t: Agent, characters: seq<string>)
    decreases |characters|
  {
    characters == [] || (characters[0] in t.characters && AllKnown(t, characters[1..]))
  }

  lemma {:induction false} AllKnownEvery(t: Agent, characters: seq<string>)
    ensures AllKnown(t, characters) <==> forall c :: c in characters ==> c in t.characters
    decreases |characters|
  {
    if characters != [] {
      AllKnownEvery(t, characters[1..]);
      assert characters == [characters[0]] + characters[1..];
    }
  }

  /** `_generate_multi_character_prompt` (prompt_agent.py:286-303). With no
      names, `all(...)` holds and `characters[-1]` raises an IndexError. */
  function MultiCharacterPrompt(t: Agent, characters: seq<string>, action: string, location: string): Result<string> {
    if !AllKnown(t, characters) then
      Ok(Sentence(Join(" and ", characters), action, location))
    else if |characters| == 2 then
      Ok(Sentence(characters[0] + " and " + characters[1],
                  Lookup(t.actions, action), Lookup(t.locations, location)))
    else if |characters| == 0 then
      Err(IndexError)
    else
      var last := |characters| - 1;
      Ok(Sentence(Join(", ", characters[..last]) + ", and " + characters[last],
                  Lookup(t.actions, action), Lookup(t.locations, location)))
  }

  /** `generate_prompt(characters, action, location)` */
  function GeneratePrompt(t: Agent, characters: seq<string>, action: string, location: string): Result<string> {
    if |characters| == 1 then Ok(SingleCharacterPrompt(t, characters[0], action, location))
    else MultiCharacterPrompt(t, characters, action, location)
  }

  // ------------------------------------------------------------ reference

  /** Serial listing of two or more names, front to back, with a comma
      before the final "and": "a, and b", "a, b, and c", ... */
  function Serial(names: seq<string>): string
    requires |names| >= 2
    decreases |names|
  {
    if |names| == 2 then names[0] + ", and " + names[1]
    else names[0] + ", " + Serial(names[1..])
  }

  /** How a list of known names is spoken: "a", "a and b", "a, b, and c". */
  function NamePhrase(names: seq<string>): string
    requires |names| >= 1
  {
    if |names| == 1 then names[0]
    else if |names| == 2 then names[0] + " and " + names[1]
    else Serial(names)
  }

  /** Joining all names but the last with ", " and adding ", and {last}" is
      the serial listing. */
  lemma {:induction false} SerialJoin(names: seq<string>)
    requires |names| >= 2
    ensures Join(", ", names[..|names| - 1]) + ", and " + names[|names| - 1] == Serial(names)
    decreases |names|
  {
    if |names| > 2 {
      var tail := names[1..];
      SerialJoin(tail);
      assert names[..|names| - 1][1..] == tail[..|tail| - 1];
      assert Join(", ", names[..|names| - 1]) == names[0] + ", " + Join(", ", tail[..|tail| - 1]);
      assert names[|names| - 1] == tail[|tail| - 1];
    }
  }

  // ------------------------------------------------------------ properties

  /** Rendering fails exactly for the empty grouping. */
  lemma {:induction false} GeneratePromptFails(t: Agent, characters: seq<string>, action: string, location: string)
    ensures GeneratePrompt(t, characters, action, location).Err? <==> characters == []
    ensures characters == [] ==> GeneratePrompt(t, characters, action, location) == Err(IndexError)
  {
  }

  /** Known names: the spoken name list, then the action and location
      templates, each falling back to the raw word. */
  lemma {:induction false} KnownNamesPrompt(t: Agent, characters: seq<string>, action: string, location: string)
    requires |characters| >= 1 && forall c :: c in characters ==> c in t.characters
    ensures GeneratePrompt(t, characters, action, location)
      == Ok(Sentence(NamePhrase(characters), Lookup(t.actions, action), Lookup(t.locations, location)))
  {
    AllKnownEvery(t, characters);
    if |characters| >= 3 {
      SerialJoin(characters);
    }
  }

  /** Some unknown name: the names joined by " and ", with the raw action and
      location. */
  lemma {:induction false} UnknownNamePrompt(t: Agent, characters: seq<string>, action: string, location: string)
    requires exists c :: c in characters && c !in t.characters
    ensures GeneratePrompt(t, characters, action, location) == Ok(Sentence(Join(" and ", characters), action, location))
  {
    AllKnownEvery(t, characters);
    if |characters| == 1 {
      assert characters[0] in characters;
    }
  }

  lemma {:induction false} JoinContains(sep: string, parts: seq<string>, i: nat)
    requires i < |parts|
    ensures Contains(Join(sep, parts), parts[i])
    decreases |parts|
  {
    if |parts| == 1 {
      ContainsSelf(parts[0]);
    } else if i == 0 {
      ContainsSelf(parts[0]);
      ContainsLeft(parts[0], sep + Join(sep, parts[1..]), parts[0]);
      assert Join(sep, parts) == parts[0] + (sep + Join(sep, parts[1..]));
    } else {
      JoinContains(sep, parts[1..], i - 1);
      ContainsRight(parts[0] + sep, Join(sep, parts[1..]), parts[i]);
      assert Join(sep, parts) == (parts[0] + sep) + Join(sep, parts[1..]);
    }
  }

  lemma {:induction false} SerialContains(names: seq<string>, i: nat)
    requires |names| >= 2 && i < |names|
    ensures Contains(Serial(names), names[i])
    decreases |names|
  {
    if |names| == 2 {
      var tail := ", and " + names[1];
      assert Serial(names) == names[0] + tail;
      if i == 0 {
        ContainsSelf(names[0]);
        ContainsLeft(names[0], tail, names[0]);
      } else {
        ContainsSelf(names[1]);
        ContainsRight(names[0] + ", and ", names[1], names[1]);
        assert names[0] + tail == (names[0] + ", and ") + names[1];
      }
    } else {
      var rest := Serial(names[1..]);
      assert Serial(names) == names[0] + (", " + rest);
      if i == 0 {
        ContainsSelf(names[0]);
        ContainsLeft(names[0], ", " + rest, names[0]);
      } else {
        SerialContains(names[1..], i - 1);
        assert names[1..][i - 1] == names[i];
        ContainsRight(names[0] + ", ", rest, names[i]);
        assert names[0] + (", " + rest) == (names[0] + ", ") + rest;
      }
    }
  }

  lemma {:induction false} PairContains(names: seq<string>, i: nat)
    requires |names| == 2 && i < 2
    ensures Contains(names[0] + " and " + names[1], names[i])
  {
    ContainsSelf(names[i]);
    if i == 0 {
      ContainsLeft(names[0], " and " + names[1], names[0]);
      assert names[0] + " and " + names[1] == names[0] + (" and " + names[1]);
    } else {
      ContainsRight(names[0] + " and ", names[1], names[1]);
    }
  }

  lemma {:induction false} PhraseContains(names: seq<string>, i: nat)
    requires i < |names|
    ensures Contains(NamePhrase(names), names[i])
  {
    if |names| == 1 {
      ContainsSelf(names[0]);
    } else if |names| == 2 {
      PairContains(names, i);
    } else {
      SerialContains(names, i);
    }
  }

  lemma {:induction false} SentenceContains(subject: string, action: string, location: string, name: string)
    requires Contains(subject, name)
    ensures Contains(Sentence(subject, action, location), name)
  {
    ContainsLeft(subject, " " + action + " in " + location, name);
    assert Sentence(subject, action, location) == subject + (" " + action + " in " + location);
  }

  /** Every name of the grouping appears in its prompt. */
  lemma {:induction false} PromptMentions(t: Agent, characters: seq<string>, action: string, location: string, i: nat)
    requires i < |characters|
    ensures GeneratePrompt(t, characters, action, location).Ok?
    ensures Contains(GeneratePrompt(t, characters, action, location).value, characters[i])
  {
    if forall c :: c in characters ==> c in t.characters {
      KnownNamesPrompt(t, characters, action, location);
      PhraseContains(characters, i);
      SentenceContains(NamePhrase(characters), Lookup(t.actions, action), Lookup(t.locations, location), characters[i]);
    } else {
      UnknownNamePrompt(t, characters, action, location);
      JoinContains(" and ", characters, i);
      SentenceContains(Join(" and ", characters), action, location, characters[i]);
    }
  }

  lemma {:induction false} SentenceEnds(subject: string, action: string, location: string)
    ensures var r := Sentence(subject, action, location);
      |r| >= |location| + 4 && r[|r| - |location| - 4..] == " in " + location
  {
    var r := Sentence(subject, action, location);
    assert r == (subject + " " + action) + (" in " + location);
  }

  /** Every prompt ends with " in " and the shown location: the template
      when every name is known, the raw word otherwise. */
  lemma {:induction false} PromptEndsWithLocation(t: Agent, characters: seq<string>, action: string, location: string)
    requires characters != []
    ensures var r := GeneratePrompt(t, characters, action, location);
      var shown := if forall c :: c in characters ==> c in t.characters then Lookup(t.locations, location) else location;
      r.Ok? && |r.value| >= |shown| + 4 && r.value[|r.value| - |shown| - 4..] == " in " + shown
  {
    if forall c :: c in characters ==> c in t.characters {
      KnownNamesPrompt(t, characters, action, location);
      SentenceEnds(NamePhrase(characters), Lookup(t.actions, action), Lookup(t.locations, location));
    } else {
      UnknownNamePrompt(t, characters, action, location);
      SentenceEnds(Join(" and ", characters), action, location);
    }
  }
}
