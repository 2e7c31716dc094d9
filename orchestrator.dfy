/** `generate_prompts_from_input` (prompt_agent.py:305-333): parse the line,
    draw the groupings, and render one prompt per grouping, the actions and
    locations taken in turn. Every exception on the way ends in the
    catch-all handler, which returns no prompts at all. */
module Orchestrator {
  import opened Outcomes
  import opened Catalog
  import opened SpecParser
  import opened Combinations
  import opened Renderer

  /** The prompt of scene i: grouping i with `actions[i % len(actions)]` and
      `locations[i % len(locations)]`; `%` on an empty list divides by zero. */
  function ScenePrompt(t: Agent, groups: seq<seq<string>>, actions: seq<string>, locations: seq<string>, i: nat): Result<string>
    requires i < |groups|
  {
    if |actions| == 0 || |locations| == 0 then Err(ZeroDivision)
    else GeneratePrompt(t, groups[i], actions[i % |actions|], locations[i % |locations|])
  }

  /** The prompts of the first n scenes, or the error of the earliest scene
      that raises. */
  function Prompts(t: Agent, groups: seq<seq<string>>, actions: seq<string>, locations: seq<string>, n: nat): Result<seq<string>>
    requires n <= |groups|
    decreases n
  {
    if n == 0 then Ok([])
    else
      var earlier :- Prompts(t, groups, actions, locations, n - 1);
      var prompt :- ScenePrompt(t, groups, actions, locations, n - 1);
      Ok(earlier + [prompt])
  }

  /** The body of the `try` block after `parse_input`. */
  function Scenes(t: Agent, cfg: Config, o: Oracle): Result<seq<string>> {
    var groups :- Combinations.Combinations(cfg.charConfig, cfg.count, o);
    Prompts(t, groups, cfg.actions, cfg.locations, |groups|)
  }

  /** The body of the `try` block. */
  function GenerateAll(t: Agent, input: string, o: Oracle): Result<seq<string>>
    requires Stocked(t)
  {
    var cfg :- ParseInput(t, input);
    Scenes(t, cfg, o)
  }

  /** What the caller receives: the prompts, or `[]` when anything raised. */
  function Delivered(r: Result<seq<string>>): seq<string> {
    if r.Ok? then r.value else []
  }

  /** The orchestrating loop of `generate_prompts_from_input`. */
  method GeneratePromptsFromInput(t: Agent, input: string, o: Oracle) returns (prompts: seq<string>)
    requires Stocked(t)
    ensures prompts == Delivered(GenerateAll(t, input, o))
  {
    var parsed := ParseInput(t, input);
    if parsed.Err? {
      return [];
    }
    var cfg := parsed.value;
    var drawn := GenerateCharacterCombinations(cfg.charConfig, cfg.count, o);
    if drawn.Err? {
      return [];
    }
    var groups := drawn.value;
    var actions, locations := cfg.actions, cfg.locations;
    prompts := [];
    for i := 0 to |groups|
      invariant Prompts(t, groups, actions, locations, i) == Ok(prompts)
    {
      var prompt := GeneratePrompt(t, groups[i], actions[i % |actions|], locations[i % |locations|]);
      if prompt.Err? {
        PromptsFailFrom(t, groups, actions, locations, i + 1, |groups|);
        return [];
      }
      prompts := prompts + [prompt.value];
    }
  }

  // ------------------------------------------------------------ properties

  /** Once a scene raises, no longer batch succeeds. */
  lemma {:induction false} PromptsFailFrom(t: Agent, groups: seq<seq<string>>, actions: seq<string>, locations: seq<string>, n: nat, m: nat)
    requires n <= m <= |groups| && Prompts(t, groups, actions, locations, n).Err?
    ensures Prompts(t, groups, actions, locations, m).Err?
    decreases m - n
  {
    if n < m {
      PromptsFailFrom(t, groups, actions, locations, n + 1, m);
    }
  }

  /** The batch of n scenes succeeds exactly when there is something to
      cycle through and no grouping among them is empty; then it has one
      prompt per scene, prompt i being `generate_prompt` of grouping i with
      the i-th action and location taken cyclically. */
  lemma {:induction false} PromptsShape(t: Agent, groups: seq<seq<string>>, actions: seq<string>, locations: seq<string>, n: nat)
    requires n <= |groups|
    ensures Prompts(t, groups, actions, locations, n).Ok? <==>
      n == 0 || (|actions| > 0 && |locations| > 0 && forall i :: 0 <= i < n ==> groups[i] != [])
    ensures var r := Prompts(t, groups, actions, locations, n);
      r.Ok? ==> |r.value| == n && forall i :: 0 <= i < n ==>
        r.value[i] == GeneratePrompt(t, groups[i], actions[i % |actions|], locations[i % |locations|]).value
    decreases n
  {
    if n > 0 {
      PromptsShape(t, groups, actions, locations, n - 1);
      if |actions| > 0 && |locations| > 0 {
        GeneratePromptFails(t, groups[n - 1], actions[(n - 1) % |actions|], locations[(n - 1) % |locations|]);
      }
    }
  }

  /** A line `parse_input` refuses yields no prompts. */
  lemma {:induction false} ParseErrorYieldsNothing(t: Agent, input: string, o: Oracle)
    requires Stocked(t) && ParseInput(t, input).Err?
    ensures GenerateAll(t, input, o) == Err(ParseInput(t, input).error)
    ensures Delivered(GenerateAll(t, input, o)) == []
  {
  }

  /** A drawn empty grouping (a `[0]` count) raises in `generate_prompt`, so
      the whole batch yields no prompts. */
  lemma {:induction false} EmptyGroupingYieldsNothing(t: Agent, cfg: Config, o: Oracle, j: nat)
    requires var g := Combinations.Combinations(cfg.charConfig, cfg.count, o);
      g.Ok? && j < |g.value| && g.value[j] == []
    ensures Scenes(t, cfg, o).Err?
    ensures Delivered(Scenes(t, cfg, o)) == []
  {
    var groups := Combinations.Combinations(cfg.charConfig, cfg.count, o).value;
    PromptsShape(t, groups, cfg.actions, cfg.locations, |groups|);
  }

  /** Groupings that are all non-empty yield one prompt per scene,
      `max(0, count)` of them, scene i rendered from grouping i, the i-th
      action and the i-th location, both taken cyclically. */
  lemma {:induction false} BatchShape(t: Agent, cfg: Config, o: Oracle)
    requires |cfg.actions| >= 1 && |cfg.locations| >= 1
    requires var g := Combinations.Combinations(cfg.charConfig, cfg.count, o);
      g.Ok? && forall j :: 0 <= j < |g.value| ==> g.value[j] != []
    ensures var groups := Combinations.Combinations(cfg.charConfig, cfg.count, o).value;
      var prompts := Delivered(Scenes(t, cfg, o));
      && Scenes(t, cfg, o).Ok?
      && |prompts| == |groups| == Iterations(cfg.count)
      && forall i :: 0 <= i < |prompts| ==>
        prompts[i] == GeneratePrompt(t, groups[i], cfg.actions[i % |cfg.actions|], cfg.locations[i % |cfg.locations|]).value
  {
    var groups := Combinations.Combinations(cfg.charConfig, cfg.count, o).value;
    CombinationsLength(cfg.charConfig, cfg.count, o);
    PromptsShape(t, groups, cfg.actions, cfg.locations, |groups|);
  }
}
