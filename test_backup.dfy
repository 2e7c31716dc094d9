/** The extractor over the 10-key `CHARACTER_REFS` table of test_backup.py
    (test_backup.py:28-39, 96-107). */
module TestBackup {
  import opened Text
  import opened Extractor
  import TestScript

  /** The keys of `CHARACTER_REFS`, in declaration order. */
  const CharacterRefs: seq<string> := [
    "Ballerina Cappuccina", "Stick", "Tralalelo Tralala", "Cappuccino Assassino",
    "Brr Brr Patapim", "Alligator", "Elephant", "Hippo", "Orca", "Pigeon"
  ]

  /** The words of the prompt in `JOINT_PROMPTS` (test_backup.py:43). */
  const PatapimWords: seq<string> := [
    "Brr", "Brr", "Patapim", "driving", "a", "fast", "motor", "boat", "in",
    "the", "ocean", "wearing", "sunglasses", "and", "a", "hawaii", "shirt"
  ]

  /** `JOINT_PROMPTS`: one prompt, its words joined by single spaces. */
  const JointPrompts: seq<string> := [Join(" ", PatapimWords)]

  lemma RefsDistinct()
    ensures |CharacterRefs| == 10 && Distinct(CharacterRefs)
  {
    forall i, j | 0 <= i < j < |CharacterRefs| ensures CharacterRefs[i] != CharacterRefs[j] {
      // no two keys agree in both length and first character
      var a, b := CharacterRefs[i], CharacterRefs[j];
      assert |a| != |b| || a[0] != b[0] by {
        assert |a| >= 4 && |b| >= 4;
      }
    }
  }

  /** `extract_characters_from_prompt` over this table: every key when a
      keyword is mentioned; otherwise exactly the keys written in the
      prompt, in table order; never a repeat. */
  method ExtractCharactersFromPrompt(prompt: string) returns (found: seq<string>)
    ensures MentionsAll(prompt) ==> found == CharacterRefs
    ensures Subsequence(found, CharacterRefs) && Distinct(found)
    ensures forall x :: x in found <==> x in CharacterRefs && (MentionsAll(prompt) || Contains(prompt, x))
  {
    found := ExtractCharacters(CharacterRefs, prompt);
    RefsDistinct();
    ExtractedShape(CharacterRefs, prompt);
  }

  /** The smaller table has no Orange and no Fish, so no prompt fetches them,
      whatever it says. */
  lemma {:induction false} NeverOrangeOrFish(prompt: string)
    ensures "Orange" !in Extracted(CharacterRefs, prompt)
    ensures "Fish" !in Extracted(CharacterRefs, prompt)
  {
    RefsDistinct();
    ExtractedShape(CharacterRefs, prompt);
  }

  /** Naming Ballerina Cappuccina fetches all ten keys. */
  lemma {:induction false} BallerinaSummonsAll(prompt: string)
    requires Contains(prompt, "Ballerina Cappuccina")
    ensures Extracted(CharacterRefs, prompt) == CharacterRefs
  {
    TestScript.BallerinaHoldsAll();
    KeyHoldsKeyword(CharacterRefs, prompt, "Ballerina Cappuccina", 0);
  }

  /** So does naming the Alligator. */
  lemma {:induction false} AlligatorSummonsAll(prompt: string)
    requires Contains(prompt, "Alligator")
    ensures Extracted(CharacterRefs, prompt) == CharacterRefs
  {
    TestScript.AlligatorHoldsAll();
    KeyHoldsKeyword(CharacterRefs, prompt, "Alligator", 0);
  }

  // ------------------------------------------------------ the shipped prompt

  /** Its only capitals are the B of each "Brr" and the P of "Patapim". */
  lemma PatapimCapitals(c: char)
    requires 'A' <= c <= 'Z' && c != 'B' && c != 'P'
    ensures forall i :: 0 <= i < |PatapimWords| ==> c !in PatapimWords[i]
  {
  }

  /** No "y" anywhere; one "P", in "Patapim". */
  lemma PatapimLettersYP()
    ensures forall i :: 0 <= i < |PatapimWords| ==> 'y' !in PatapimWords[i]
    ensures forall i :: 0 <= i < |PatapimWords| && i != 2 ==> 'P' !in PatapimWords[i]
  {
  }

  /** One "f", in "fast"; one "l", in "sunglasses". */
  lemma PatapimLettersFL()
    ensures forall i :: 0 <= i < |PatapimWords| && i != 5 ==> 'f' !in PatapimWords[i]
    ensures forall i :: 0 <= i < |PatapimWords| && i != 12 ==> 'l' !in PatapimWords[i]
  {
  }

  /** The only words with "g" are "driving", "wearing" and "sunglasses". */
  lemma PatapimLettersG()
    ensures forall i :: 0 <= i < |PatapimWords| && i != 3 && i != 11 && i != 12 ==> 'g' !in PatapimWords[i]
  {
  }

  lemma PatapimSpecialWords()
    ensures PatapimWords[2] == "Patapim" && PatapimWords[5] == "fast"
    ensures PatapimWords[12] == "sung" + ['l'] + "asses"
    ensures PatapimWords[3] == "driving" && PatapimWords[11] == "wearing"
  {
  }

  lemma {:induction false} PatapimLacksAll()
    ensures !Contains(Lower(JointPrompts[0]), Keywords[0])
  {
    PatapimLettersFL();
    PatapimSpecialWords();
    PatapimCapitals('L');
    forall i | 0 <= i < |PatapimWords| ensures !Contains(Lower(PatapimWords[i]), Keywords[0]) {
      if i == 12 {
        KeywordSole("sung", 'l', "asses", Keywords[0], 1);
      } else {
        KeywordAbsent(PatapimWords[i], Keywords[0], 1);
      }
    }
    WordsLackKeyword(PatapimWords, Keywords[0]);
  }

  lemma {:induction false} PatapimLacksFive()
    ensures !Contains(Lower(JointPrompts[0]), Keywords[1])
  {
    PatapimLettersFL();
    PatapimSpecialWords();
    PatapimCapitals('F');
    PatapimCapitals('I');
    forall i | 0 <= i < |PatapimWords| ensures !Contains(Lower(PatapimWords[i]), Keywords[1]) {
      if i == 5 {
        KeywordAbsent(PatapimWords[i], Keywords[1], 1);
      } else {
        KeywordAbsent(PatapimWords[i], Keywords[1], 0);
      }
    }
    WordsLackKeyword(PatapimWords, Keywords[1]);
  }

  lemma {:induction false} PatapimLacksEveryone()
    ensures !Contains(Lower(JointPrompts[0]), Keywords[2])
  {
    PatapimLettersYP();
    PatapimCapitals('Y');
    LetterAbsent(PatapimWords, Keywords[2], 4);
  }

  lemma {:induction false} PatapimLacksTogether()
    ensures !Contains(Lower(JointPrompts[0]), Keywords[3])
  {
    PatapimLettersG();
    PatapimSpecialWords();
    PatapimCapitals('G');
    PatapimCapitals('T');
    forall i | 0 <= i < |PatapimWords| ensures !Contains(Lower(PatapimWords[i]), Keywords[3]) {
      if i == 3 || i == 11 || i == 12 {
        KeywordAbsent(PatapimWords[i], Keywords[3], 0);
      } else {
        KeywordAbsent(PatapimWords[i], Keywords[3], 2);
      }
    }
    WordsLackKeyword(PatapimWords, Keywords[3]);
  }

  /** The shipped prompt mentions no keyword. */
  lemma {:induction false} PatapimNoKeyword()
    ensures !MentionsAll(JointPrompts[0])
  {
    PatapimLacksAll();
    PatapimLacksFive();
    PatapimLacksEveryone();
    PatapimLacksTogether();
    NoKeyword(JointPrompts[0]);
  }

  /** The first three words, joined, are the key "Brr Brr Patapim". */
  lemma PatapimFront()
    ensures PatapimWords[..3] == ["Brr", "Brr", "Patapim"]
    ensures Join(" ", ["Brr", "Brr", "Patapim"]) == "Brr Brr Patapim"
  {
    var w := ["Brr", "Brr", "Patapim"];
    assert w[1..] == ["Brr", "Patapim"];
    assert w[1..][1..] == ["Patapim"];
    assert Join(" ", w) == "Brr" + " " + ("Brr" + " " + "Patapim");
  }

  lemma {:induction false} PatapimNamed()
    ensures Contains(JointPrompts[0], "Brr Brr Patapim")
  {
    JoinFront(PatapimWords, 3);
    PatapimFront();
    ContainsSelf("Brr Brr Patapim");
    ContainsLeft("Brr Brr Patapim", " " + Join(" ", PatapimWords[3..]), "Brr Brr Patapim");
  }

  lemma {:induction false} PigeonAbsent()
    ensures !Contains(JointPrompts[0], "Pigeon")
  {
    PatapimLettersYP();
    PatapimSpecialWords();
    forall i | 0 <= i < |PatapimWords| ensures !Contains(PatapimWords[i], "Pigeon") {
      if i == 2 {
        AbsentChar(PatapimWords[i], "Pigeon", 2);
      } else {
        AbsentChar(PatapimWords[i], "Pigeon", 0);
      }
    }
    WordsLack(PatapimWords, "Pigeon");
  }

  /** Of the keys, the shipped prompt names Brr Brr Patapim alone. */
  lemma {:induction false} PatapimOnlyKey()
    ensures forall i :: 0 <= i < |CharacterRefs| ==> (Contains(JointPrompts[0], CharacterRefs[i]) <==> i == 4)
  {
    forall i | 0 <= i < |CharacterRefs| ensures Contains(JointPrompts[0], CharacterRefs[i]) <==> i == 4 {
      if i == 4 {
        PatapimNamed();
      } else if i == 9 {
        PigeonAbsent();
      } else if i == 0 {
        // the B of "Ballerina" is in "Brr", but no word has a capital C
        PatapimCapitals('C');
        KeyLetterAbsent(PatapimWords, CharacterRefs[i], 10);
      } else {
        PatapimCapitals(CharacterRefs[i][0]);
        KeyLetterAbsent(PatapimWords, CharacterRefs[i], 0);
      }
    }
  }

  /** Of the keys, the shipped prompt names Brr Brr Patapim alone. */
  lemma {:induction false} PatapimSingle()
    ensures !MentionsAll(JointPrompts[0]) && Distinct(CharacterRefs) && 4 < |CharacterRefs|
    ensures forall i :: 0 <= i < |CharacterRefs| ==> (Contains(JointPrompts[0], CharacterRefs[i]) <==> i == 4)
  {
    PatapimNoKeyword();
    PatapimOnlyKey();
    RefsDistinct();
  }

  lemma PatapimKey()
    ensures CharacterRefs[4] == "Brr Brr Patapim"
  {
  }

  lemma {:induction false} PatapimFetchesKey()
    ensures Extracted(CharacterRefs, JointPrompts[0]) == [CharacterRefs[4]]
  {
    PatapimSingle();
    SingleMatch(CharacterRefs, JointPrompts[0], 4);
  }

  /** The shipped prompt fetches Brr Brr Patapim's picture only. */
  lemma {:induction false} PatapimExample()
    ensures Extracted(CharacterRefs, JointPrompts[0]) == ["Brr Brr Patapim"]
  {
    PatapimFetchesKey();
    PatapimKey();
  }
}
