/** The fixed catalogs the prompt generator is built with: the character
    themes (only their keys are ever read), and the action and location
    templates (key -> display string). Key order is declaration order. */
module Catalog {
  import opened Text

  /** Keys of `character_themes`, in declaration order. */
  const CharacterThemes: seq<string> := [
    "Ballerina Cappuccina", "Stick", "Tralalelo Tralala", "Cappuccino Assassino",
    "Brr Brr Patapim", "Alligator", "Elephant", "Hippo", "Orca", "Pigeon",
    "Espressina", "Chimpanzini", "Gusini", "Teepot", "Tung", "Fish", "Hamster",
    "Orange"
  ]

  /** Keys of `location_templates`, in declaration order. */
  const LocationKeys: seq<string> := [
    "bedroom", "kitchen", "park", "forest", "city", "beach", "classroom",
    "garden", "ocean", "pool", "mountain"
  ]

  const LocationTemplates: map<string, string> := map[
    "bedroom" := "bedroom", "kitchen" := "kitchen", "park" := "park",
    "forest" := "forest", "city" := "city", "beach" := "beach",
    "classroom" := "classroom", "garden" := "garden", "ocean" := "ocean",
    "pool" := "pool", "mountain" := "snowy mountain landscape"
  ]

  /** Keys of `action_templates`, in declaration order. */
  const ActionKeys: seq<string> := [
    "sleeping", "playing", "eating", "walking", "dancing", "reading",
    "painting", "singing", "swimming", "flying", "running", "jumping",
    "standing"
  ]

  const ActionTemplates: map<string, string> := map[
    "sleeping" := "sleeping", "playing" := "playing", "eating" := "eating",
    "walking" := "walking", "dancing" := "dancing", "reading" := "reading",
    "painting" := "painting", "singing" := "singing", "swimming" := "swimming",
    "flying" := "flying", "running" := "running", "jumping" := "jumping",
    "standing" := "standing"
  ]

  /** What the prompt generator reads of a `PromptAgent`: the character
      theme keys, the two template maps, and the template keys in declaration
      order (what `list(d.keys())` gives). */
  datatype Agent = Agent(
    characters: seq<string>,
    actions: map<string, string>,
    locations: map<string, string>,
    actionKeys: seq<string>,
    locationKeys: seq<string>)

  /** Every catalog has at least one key, as the constructed agent's do. */
  predicate Stocked(a: Agent) {
    |a.characters| >= 1 && |a.actionKeys| >= 1 && |a.locationKeys| >= 1
  }

  /** The catalogs the agent is constructed with. */
  const Default: Agent := Agent(CharacterThemes, ActionTemplates, LocationTemplates, ActionKeys, LocationKeys)

  /** `templates.get(key, key)`: the display string, or the key itself. */
  function Lookup(templates: map<string, string>, key: string): string {
    if key in templates then templates[key] else key
  }

  /** `name in self.character_themes` */
  predicate IsCharacter(name: string) {
    name in CharacterThemes
  }

  /** The character keys are 18 distinct names. */
  lemma ThemesDistinct()
    ensures |CharacterThemes| == 18 && Distinct(CharacterThemes)
  {
    forall i, j | 0 <= i < j < |CharacterThemes| ensures CharacterThemes[i] != CharacterThemes[j] {
      // no two keys agree in both length and first character
      var a, b := CharacterThemes[i], CharacterThemes[j];
      assert |a| != |b| || a[0] != b[0] by {
        assert |a| >= 4 && |b| >= 4;
      }
    }
  }

  lemma DefaultStocked()
    ensures Stocked(Default)
  {
  }

  /** The key sequences list exactly the maps' keys. */
  lemma ActionKeysMatch()
    ensures forall k :: k in ActionTemplates <==> k in ActionKeys
  {
  }

  lemma LocationKeysMatch()
    ensures forall k :: k in LocationTemplates <==> k in LocationKeys
  {
  }

  /** Every action renders as itself, whether or not it has a template. */
  lemma ActionDisplay(a: string)
    ensures Lookup(ActionTemplates, a) == a
  {
  }

  /** Every location renders as itself, except "mountain". */
  lemma LocationDisplay(l: string)
    ensures Lookup(LocationTemplates, l) == if l == "mountain" then "snowy mountain landscape" else l
  {
  }
}
