/** The extractor over the 18-key `CHARACTER_REFS` table of test.py
    (test.py:34-53, 125-136). */
module TestScript {
  import opened Text
  import opened Extractor

  /** The keys of `CHARACTER_REFS`, in declaration order. */
  const CharacterRefs: seq<string> := [
    "Ballerina Cappuccina", "Stick", "Tralalelo Tralala", "Cappuccino Assassino",
    "Brr Brr Patapim", "Alligator", "Elephant", "Hippo", "Orca", "Pigeon",
    "Espressina", "Chimpanzini", "Gusini", "Teepot", "Tung", "Fish", "Hamster",
    "Orange"
  ]

  /** The words of the prompt in `JOINT_PROMPTS` (test.py:57). */
  const OrcaWords: seq<string> := ["Orca", "standing", "in", "snowy", "mountain", "landscape"]

  /** `JOINT_PROMPTS`: one prompt, its words joined by single spaces. */
  const JointPrompts: seq<string> := [Join(" ", OrcaWords)]

  lemma RefsDistinct()
    ensures |CharacterRefs| == 18 && Distinct(CharacterRefs)
  {
    forall i, j | 0 <= i < j < |CharacterRefs| ensures CharacterRefs[i] != CharacterRefs[j] {
      // no two keys agree in both length and first character
      var a, b := CharacterRefs[i], CharacterRefs[j];
      assert |a| != |b| || a[0] != b[0] by {
        assert |a| >= 4 && |b| >= 4;
      }
    }
  }

  /** `extract_characters_from_prompt`: every key when a keyword is
      mentioned; otherwise exactly the keys written in the prompt, in table
      order; never a repeat. */
  method ExtractCharactersFromPrompt(prompt: string) returns (found: seq<string>)
    ensures MentionsAll(prompt) ==> found == CharacterRefs
    ensures Subsequence(found, CharacterRefs) && Distinct(found)
    ensures forall x :: x in found <==> x in CharacterRefs && (MentionsAll(prompt) || Contains(prompt, x))
  {
    found := ExtractCharacters(CharacterRefs, prompt);
    RefsDistinct();
    ExtractedShape(CharacterRefs, prompt);
  }

  // ------------------------------------------------------ the "all" inside names

  lemma BallerinaHoldsAll()
    ensures Contains(Lower("Ballerina Cappuccina"), Keywords[0])
  {
    var l := Lower("Ballerina Cappuccina");
    assert l[1] == 'a' && l[2] == 'l' && l[3] == 'l';
    assert Keywords[0] <= l[1..];
    ContainsAt(l, Keywords[0], 1);
  }

  lemma AlligatorHoldsAll()
    ensures Contains(Lower("Alligator"), Keywords[0])
  {
    var l := Lower("Alligator");
    assert l[0] == 'a' && l[1] == 'l' && l[2] == 'l';
    assert Keywords[0] <= l[0..];
    ContainsAt(l, Keywords[0], 0);
  }

  /** Naming Ballerina Cappuccina fetches the whole cast: her lower-cased
      name contains "all". */
  lemma {:induction false} BallerinaSummonsAll(prompt: string)
    requires Contains(prompt, "Ballerina Cappuccina")
    ensures Extracted(CharacterRefs, prompt) == CharacterRefs
  {
    BallerinaHoldsAll();
    KeyHoldsKeyword(CharacterRefs, prompt, "Ballerina Cappuccina", 0);
  }

  /** So does naming the Alligator. */
  lemma {:induction false} AlligatorSummonsAll(prompt: string)
    requires Contains(prompt, "Alligator")
    ensures Extracted(CharacterRefs, prompt) == CharacterRefs
  {
    AlligatorHoldsAll();
    KeyHoldsKeyword(CharacterRefs, prompt, "Alligator", 0);
  }

  // ------------------------------------------------------ the shipped prompt

  /** Its only capital is the O of "Orca". */
  lemma OrcaCapitals(c: char)
    requires 'A' <= c <= 'Z' && c != 'O'
    ensures forall i :: 0 <= i < |OrcaWords| ==> c !in OrcaWords[i]
  {
  }

  lemma OrcaLetters()
    ensures forall i :: 0 <= i < |OrcaWords| ==> 'f' !in OrcaWords[i] && 'v' !in OrcaWords[i] && 'h' !in OrcaWords[i]
  {
  }

  /** The one "l" is the first letter of "landscape". */
  lemma OrcaLetterL()
    ensures forall i :: 0 <= i < |OrcaWords| - 1 ==> 'l' !in OrcaWords[i]
    ensures OrcaWords[5] == [] + ['l'] + "andscape"
  {
  }

  /** Its one "l" begins "landscape", where no second "l" follows. */
  lemma {:induction false} OrcaLacksAll()
    ensures !Contains(Lower(JointPrompts[0]), Keywords[0])
  {
    OrcaLetterL();
    OrcaCapitals('L');
    forall i | 0 <= i < |OrcaWords| ensures !Contains(Lower(OrcaWords[i]), Keywords[0]) {
      if i == 5 {
        KeywordSole([], 'l', "andscape", Keywords[0], 1);
      } else {
        KeywordAbsent(OrcaWords[i], Keywords[0], 1);
      }
    }
    WordsLackKeyword(OrcaWords, Keywords[0]);
  }

  lemma {:induction false} OrcaLacksFive()
    ensures !Contains(Lower(JointPrompts[0]), Keywords[1])
  {
    OrcaLetters();
    OrcaCapitals('F');
    LetterAbsent(OrcaWords, Keywords[1], 0);
  }

  lemma {:induction false} OrcaLacksEveryone()
    ensures !Contains(Lower(JointPrompts[0]), Keywords[2])
  {
    OrcaLetters();
    OrcaCapitals('V');
    LetterAbsent(OrcaWords, Keywords[2], 1);
  }

  lemma {:induction false} OrcaLacksTogether()
    ensures !Contains(Lower(JointPrompts[0]), Keywords[3])
  {
    OrcaLetters();
    OrcaCapitals('H');
    LetterAbsent(OrcaWords, Keywords[3], 5);
  }

  /** The shipped prompt mentions no keyword. */
  lemma {:induction false} OrcaNoKeyword()
    ensures !MentionsAll(JointPrompts[0])
  {
    OrcaLacksAll();
    OrcaLacksFive();
    OrcaLacksEveryone();
    OrcaLacksTogether();
    NoKeyword(JointPrompts[0]);
  }

  lemma {:induction false} OrcaNamed()
    ensures Contains(JointPrompts[0], "Orca")
  {
    var rest := Join(" ", OrcaWords[1..]);
    assert JointPrompts[0] == "Orca" + (" " + rest);
    ContainsSelf("Orca");
    ContainsLeft("Orca", " " + rest, "Orca");
  }

  lemma {:induction false} OrangeAbsent()
    ensures !Contains(JointPrompts[0], "Orange")
  {
    forall i | 0 <= i < |OrcaWords| ensures !Contains(OrcaWords[i], "Orange") {
      if i == 0 {
        AbsentChar(OrcaWords[i], "Orange", 3);
      } else {
        AbsentChar(OrcaWords[i], "Orange", 0);
      }
    }
    WordsLack(OrcaWords, "Orange");
  }

  /** Of the keys, the shipped prompt names the Orca alone. */
  lemma {:induction false} OrcaOnlyKey()
    ensures forall i :: 0 <= i < |CharacterRefs| ==> (Contains(JointPrompts[0], CharacterRefs[i]) <==> i == 8)
  {
    forall i | 0 <= i < |CharacterRefs| ensures Contains(JointPrompts[0], CharacterRefs[i]) <==> i == 8 {
      if i == 8 {
        OrcaNamed();
      } else if i == 17 {
        OrangeAbsent();
      } else {
        OrcaCapitals(CharacterRefs[i][0]);
        KeyLetterAbsent(OrcaWords, CharacterRefs[i], 0);
      }
    }
  }

  /** The shipped prompt fetches the Orca's picture only. */
  lemma {:induction false} OrcaExample()
    ensures Extracted(CharacterRefs, JointPrompts[0]) == ["Orca"]
  {
    OrcaNoKeyword();
    OrcaOnlyKey();
    RefsDistinct();
    SingleMatch(CharacterRefs, JointPrompts[0], 8);
  }
}
