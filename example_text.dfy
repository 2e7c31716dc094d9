/** Spelled-out concatenations of the example sentences, kept apart from
    the model so that each is checked on its own. */
module ExampleText {

  lemma MountainSentence()
    ensures "Orca" + " " + "standing" + " in " + "snowy mountain landscape" == "Orca standing in snowy mountain landscape"
  {
    assert "Orca" + " " + "standing" + " in " == "Orca standing in ";
    assert "Orca standing in " + "snowy mountain landscape" == "Orca standing in snowy mountain landscape";
  }

  lemma PairSentences()
    ensures "Orange and Pigeon " + "playing" + " in " + "park" == "Orange and Pigeon playing in park"
    ensures "Orange and Pigeon " + "eating" + " in " + "park" == "Orange and Pigeon eating in park"
  {
  }

  lemma TrioSentence()
    ensures "Orange" + ", " + "Pigeon" + ", and " + "Fish" + " " + "playing" + " in " + "park"
      == "Orange, Pigeon, and Fish playing in park"
  {
    assert "Orange" + ", " + "Pigeon" == "Orange, Pigeon";
    assert "Orange, Pigeon" + ", and " + "Fish" == "Orange, Pigeon, and Fish";
    assert "Orange, Pigeon, and Fish" + " " + "playing" == "Orange, Pigeon, and Fish playing";
  }

  lemma UnknownSentence()
    ensures "Bob" + " and " + "Orange" + " " + "flying" + " in " + "mountain" == "Bob and Orange flying in mountain"
  {
    assert "Bob" + " and " + "Orange" == "Bob and Orange";
    assert "Bob and Orange" + " " + "flying" == "Bob and Orange flying";
  }
}
