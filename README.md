# Prompt generation and reference extraction of image-gen

This project models, in Dafny, the text-processing core of the image-gen
scripts. It has two parts.

- **The prompt agent** (`PromptAgent` in `prompt_agent.py`). It reads a
  scene specification `count|characters|actions|locations`, where the
  character segment may carry a `[m]` or `[m-n]` count prefix and joins its
  names with `+` (together) or `,` (separate). It draws one grouping of
  characters per scene, then renders one sentence per scene,
  "{names} {action} in {location}", using its action and location
  templates. The model also covers the Python list literal the agent writes
  back into the image script.
- **The extractor** (`extract_characters_from_prompt`). Both image scripts,
  `test.py` and `test_backup.py`, use it to pick the reference pictures for
  a prompt. It returns every key of the character table if the lower-cased
  prompt contains "all", "five", "everyone" or "together". Otherwise it
  returns the keys that occur in the prompt, in table order.

Modules:

| module | models |
|---|---|
| `Outcomes` | the exceptions the generator can raise, as a `Result` |
| `Text` | `strip`, `split`, `join`, `in` on strings, ASCII `lower`, the quote escaping |
| `Catalog` | the fixed character keys and the action and location templates |
| `SpecParser` | `parse_input` and `_parse_characters`, including the count-prefix regex |
| `SpecFormat` | a writer for specification lines, with the round trip through the parser |
| `SpecExamples` | the parser on concrete lines and on edge cases |
| `Combinations` | `generate_character_combinations`, with the random calls driven by an `Oracle` of raw draws |
| `Renderer` | `generate_prompt` and its single- and multi-character helpers |
| `Orchestrator` | `generate_prompts_from_input` and its catch-all error handler |
| `ExampleText`, `BatchExamples` | the pipeline on the example inputs |
| `PromptsLiteral` | the `JOINT_PROMPTS` literal that `update_test_py` builds, and reading it back |
| `Extractor` | the extractor over any key table |
| `TestScript`, `TestBackup` | the extractor over the 18-key and the 10-key `CHARACTER_REFS` tables, and their shipped prompts |

Where the code iterates, the model has a method with that loop. These are
the grouping loops, the batch loop, the literal builder and the extractor's
two loops. Each method is proved equal to a function, and the properties
are proved as lemmas about that function. Every property about random
choices holds for every oracle. So it holds for every outcome of
`random.randint` and `random.sample`.

For an empty grouping, `_generate_multi_character_prompt` reaches
`characters[-1]` and raises an `IndexError` (prompt_agent.py:296). The
batch then returns no prompts. The model follows the code
(`Renderer.GeneratePromptFails`, `BatchExamples.ZeroCountBatch`).

## Model

| member | source | states |
|---|---|---|
| Text.Strip | prompt_agent.py:161 | the result is a slice of the input with only whitespace before and after it, and has no whitespace at either end; an already stripped string comes back unchanged |
| Text.StripUnique | prompt_agent.py:161 | any stripped slice of the input with only whitespace around it is the result of `strip()`, so that result is the only one possible |
| Text.Split | prompt_agent.py:161 | no piece contains the separator, and joining the pieces with the separator gives the input back |
| Text.SplitJoin | prompt_agent.py:161 | splitting separator-free pieces joined by the separator gives those pieces back |
| Text.LowerHasNoCapital | test.py:133 | no character of a lower-cased string is a capital letter |
| Text.LowerIdempotent | test.py:133 | lower-casing twice is lower-casing once |
| Text.LowerKeepsOthers | test.py:133 | every character other than a capital letter keeps its place unchanged |
| Text.LowerContains | test.py:133 | a substring of the prompt, lower-cased, is a substring of the lower-cased prompt |
| Text.EscapeQuotes | prompt_agent.py:351 | every `"` in the escaped text has a backslash right before it, and the text does not start with `"` |
| Text.UnescapeEscape | prompt_agent.py:351 | turning `\"` back into `"` undoes the escaping, for every string |
| Catalog.ThemesDistinct | prompt_agent.py:16-125 | the character themes have 18 keys, no two alike |
| Catalog.ActionKeysMatch | prompt_agent.py:143-157 | the action key list holds exactly the keys of the action templates |
| Catalog.LocationKeysMatch | prompt_agent.py:128-140 | the location key list holds exactly the keys of the location templates |
| Catalog.ActionDisplay | prompt_agent.py:143-157 | every action is shown as itself |
| Catalog.LocationDisplay | prompt_agent.py:128-140 | every location is shown as itself, except that "mountain" is shown as "snowy mountain landscape" |
| SpecParser.ParseInt | prompt_agent.py:165 | the model's `int()` accepts an optional sign followed by at least one ASCII digit, and nothing else; the inputs where Python's `int()` differs are listed under Left out |
| SpecParser.ParseShowInt | prompt_agent.py:165 | reading the decimal text of any integer gives that integer back |
| SpecParser.MatchCountPrefixSound | prompt_agent.py:193 | a match has well-formed groups: digits, optional digits, a non-empty single-line body; it covers a prefix of the segment that ends at the end of the segment or at a newline |
| SpecParser.MatchCountPrefixComplete | prompt_agent.py:193 | every well-formed prefix followed by nothing or a newline is matched with exactly its own groups |
| SpecParser.CountSpec | prompt_agent.py:193-202 | the distribution is `auto` exactly when the count-prefix regex does not match |
| SpecParser.ParseCharacters | prompt_agent.py:190-222 | the character configuration always names at least one character |
| SpecParser.ParseList | prompt_agent.py:174-181 | an action or location list is never empty |
| SpecParser.ParseInput | prompt_agent.py:159-188 | a parsed configuration has non-empty character, action and location lists |
| SpecFormat.ParseNames | prompt_agent.py:204-214 | plain names joined by the mode's separator, with no count prefix, are read back as those names in that mode with `auto` distribution; a lone `ALL` is read as every character key |
| SpecFormat.ParseCharactersText | prompt_agent.py:190-222 | the written character segment of every writable configuration is read back as that configuration |
| SpecFormat.ParseItems | prompt_agent.py:174-181 | plain items joined by commas are read back as the items, or as every key for a lone `RANDOM` |
| SpecFormat.ParseListText | prompt_agent.py:174-181 | a writable item list is read back from its text |
| SpecFormat.ParseSegments | prompt_agent.py:161-171 | on four stripped segments without `\|`, `parse_input` reads the count with `int()` (an error if that fails), then each segment on its own |
| SpecFormat.InputSegments | prompt_agent.py:161 | a written specification line splits back into its four segments |
| SpecFormat.ParseInputText | prompt_agent.py:159-188 | `parse_input` inverts the writer on every writable configuration |
| SpecExamples.TogetherExample | prompt_agent.py:159-222 | `2\|Orange+Pigeon\|playing,eating\|park` parses to count 2, the two names together with `auto` distribution, two actions and one location |
| SpecExamples.BarePrefixIsName | prompt_agent.py:193-202 | `[2]` with nothing after it does not match the count regex and is a name |
| SpecExamples.AllExpands | prompt_agent.py:212-214 | a lone `ALL` stands for every character key |
| SpecExamples.AllBesideNameStays | prompt_agent.py:204-214 | `ALL` next to another name stays a name |
| SpecExamples.RandomExpands | prompt_agent.py:174-181 | a lone `RANDOM` stands for every key |
| SpecExamples.EmptyItemKept | prompt_agent.py:174 | an empty item between two commas is kept |
| SpecExamples.TooFewSegments | prompt_agent.py:161-163 | a line with three segments is refused |
| SpecExamples.CountNotInteger | prompt_agent.py:165 | a count that is not an integer is refused |
| SpecExamples.ZeroCountExample | prompt_agent.py:193-198 | `[0]Orange` asks for scenes of zero to zero characters |
| Combinations.RandInt | prompt_agent.py:247 | the drawn size lies between the bounds |
| Combinations.RandIntReaches | prompt_agent.py:247 | every value between the bounds is drawn by some oracle |
| Combinations.SceneSize | prompt_agent.py:244-247 | the scene size lies between the bounds, and is the minimum when the bounds agree |
| Combinations.SampleCount | prompt_agent.py:252 | a sample takes no name more often than the pool holds it |
| Combinations.SampleReaches | prompt_agent.py:252 | every choice of distinct positions of the pool, in any order, is the sample drawn by some list of raw picks |
| Combinations.RemoveEachCount | prompt_agent.py:256-258 | removing the selected names takes away as many copies of each name as were selected, and no more than the pool holds |
| Combinations.GenerateCharacterCombinations | prompt_agent.py:224-265 | the loops compute the reference function `Combinations` |
| Combinations.RepeatCharacters | prompt_agent.py:234-237 | the together loop puts the whole list in every scene |
| Combinations.CycleCharacters | prompt_agent.py:259-263 | the auto loop gives scene i the name at i modulo the list length, or fails with a division by zero when there are scenes but no names |
| Combinations.DrawCharacters | prompt_agent.py:240-258 | the count-specified loop fails with an empty `randint` range when min > max and there are scenes; otherwise it draws the reference groupings |
| Combinations.DrawScene | prompt_agent.py:244-258 | one pass draws grouping i and leaves the pool of scene i + 1 |
| Combinations.RemoveSelected | prompt_agent.py:256-258 | the removal loop drops the first occurrence of each selected name still present |
| Combinations.PoolWithin | prompt_agent.py:242-258 | the available pool is always a sub-multiset of the character list |
| Combinations.GroupWithin | prompt_agent.py:249-253 | a grouping has min(size, number of names) names, all drawn from the list without using a name more often than it occurs; with distinct names, none repeats |
| Combinations.PoolExcludesGroup | prompt_agent.py:255-258 | with distinct names, none of a scene's names is left in the pool right after that scene |
| Combinations.NoRepeatBetweenResets | prompt_agent.py:249-258 | with distinct names, no name appears in two groupings drawn with no pool reset between them |
| Combinations.CombinationsLength | prompt_agent.py:232-263 | a successful run has exactly max(0, count) groupings |
| Combinations.CombinationsFails | prompt_agent.py:240-263 | the generator fails exactly when a separate scene would call `randint` with min > max, or take `i % 0` in the auto branch |
| Combinations.TogetherScenes | prompt_agent.py:234-237 | in together mode every scene holds the whole list |
| Combinations.AutoScenes | prompt_agent.py:259-263 | in auto mode scene j holds the single name at position j modulo the list length |
| Combinations.AutoFirstRound | prompt_agent.py:259-263 | the first rounds of auto mode name each character once, in list order |
| Combinations.CountSpecifiedScenes | prompt_agent.py:240-258 | count-specified scene j has exactly min(k, number of names) names, k its drawn size, so between min(min, number of names) and max; all of them come from the list, no name more often than it occurs |
| Renderer.AllKnownEvery | prompt_agent.py:288 | the `all(...)` test holds exactly when every name is a character key |
| Renderer.SerialJoin | prompt_agent.py:296 | ", ".join of all but the last name, plus ", and {last}", is the serial listing "a, b, and c" |
| Renderer.GeneratePromptFails | prompt_agent.py:267-296 | rendering fails exactly for the empty grouping, with an `IndexError` |
| Renderer.KnownNamesPrompt | prompt_agent.py:267-303 | known names give "{spoken names} {action template} in {location template}", the names spoken as "a", "a and b" or "a, b, and c" |
| Renderer.UnknownNamePrompt | prompt_agent.py:274-290 | when some name is unknown: the names joined by " and ", then the raw action and location |
| Renderer.PromptMentions | prompt_agent.py:267-303 | every name of a grouping occurs in its prompt |
| Renderer.PromptEndsWithLocation | prompt_agent.py:277-303 | every prompt ends with " in " and the location as shown: the template when all names are known, the raw word otherwise |
| Orchestrator.GeneratePromptsFromInput | prompt_agent.py:305-333 | the batch loop returns the rendered prompts when nothing raises, and `[]` when anything does |
| Orchestrator.PromptsFailFrom | prompt_agent.py:320-333 | once a scene raises, no longer batch succeeds |
| Orchestrator.PromptsShape | prompt_agent.py:320-327 | a batch succeeds exactly when it has scenes to cycle through and no empty grouping; prompt i then renders grouping i with action i and location i, both taken cyclically |
| Orchestrator.ParseErrorYieldsNothing | prompt_agent.py:305-333 | a line the parser refuses yields no prompts |
| Orchestrator.EmptyGroupingYieldsNothing | prompt_agent.py:320-333 | an empty drawn grouping makes the whole batch yield no prompts |
| Orchestrator.BatchShape | prompt_agent.py:305-329 | with non-empty groupings, the batch has max(0, count) prompts, scene i rendered from grouping i, action i and location i |
| BatchExamples.PairScenes | prompt_agent.py:305-329 | together mode renders the same pair in both scenes, the actions taken in turn |
| BatchExamples.TogetherBatch | prompt_agent.py:305-333 | `2\|Orange+Pigeon\|playing,eating\|park` yields "Orange and Pigeon playing in park" and "Orange and Pigeon eating in park", whatever the random draws |
| BatchExamples.SingleExample | prompt_agent.py:274-284 | one known character gets the templates: "Orca standing in snowy mountain landscape" |
| BatchExamples.TrioExample | prompt_agent.py:292-303 | three known names are listed with a serial comma |
| BatchExamples.UnknownExample | prompt_agent.py:288-290 | with an unknown name, the words stay raw: "Bob and Orange flying in mountain" |
| BatchExamples.ZeroCountBatch | prompt_agent.py:305-333 | `1\|[0]Orange\|playing\|park` fails and delivers no prompts |
| BatchExamples.ShortLineBatch | prompt_agent.py:305-333 | a line without four segments delivers no prompts |
| PromptsLiteral.BuildPromptsLiteral | prompt_agent.py:348-356 | the loop builds `[`, one indented quoted line per prompt with commas between, and `    ]`, joined by newlines |
| PromptsLiteral.UnquoteLine | prompt_agent.py:351-354 | each line of the list reads back as its prompt |
| PromptsLiteral.LiteralSplits | prompt_agent.py:348-356 | without newlines in the prompts, the literal's lines are `[`, one line per prompt, and `    ]` |
| PromptsLiteral.ReadLiteralBuilt | prompt_agent.py:348-356 | reading the literal back gives the prompts, when none holds a newline |
| PromptsLiteral.EmptyLiteral | prompt_agent.py:348-356 | no prompts give the brackets alone |
| Extractor.ExtractCharacters | test.py:125-136 | the two loops compute every key if a keyword is mentioned, else the keys that occur in the prompt |
| Extractor.MatchesMembers | test.py:128-130 | a key is collected exactly when it occurs in the prompt |
| Extractor.MatchesOrdered | test.py:128-130 | the collected keys keep table order |
| Extractor.MatchesDistinct | test.py:128-130 | over a table without repeats, no key is collected twice |
| Extractor.MatchesCharacterized | test.py:128-130 | over distinct keys, the collected keys are the only ordered selection of exactly the keys in the prompt |
| Extractor.ExtractedShape | test.py:125-136 | a mentioned keyword gives the whole table; always the result is an ordered, repeat-free selection of keys, holding a key exactly when a keyword is mentioned or the key occurs in the prompt |
| Extractor.NothingFound | test.py:125-136 | no key and no keyword give nothing |
| Extractor.SingleMatch | test.py:125-136 | exactly one key in the prompt and no keyword give that key alone |
| Extractor.KeyHoldsKeyword | test.py:133-134 | a key whose lower-cased form contains a keyword fetches the whole table whenever the prompt names it |
| TestScript.RefsDistinct | test.py:34-53 | the table has 18 keys, no two alike |
| TestScript.ExtractCharactersFromPrompt | test.py:125-136 | every key when a keyword is mentioned; otherwise exactly the keys in the prompt, in table order, none twice |
| TestScript.BallerinaSummonsAll | test.py:125-136 | a prompt that names Ballerina Cappuccina fetches all 18 keys of lines 34-53, since "ballerina" contains "all" |
| TestScript.AlligatorSummonsAll | test.py:125-136 | a prompt that names the Alligator fetches all 18 keys of lines 34-53, since "alligator" contains "all" |
| TestScript.OrcaNoKeyword | test.py:133 | the shipped prompt of line 58 contains none of the four keywords, after lower-casing |
| TestScript.OrcaOnlyKey | test.py:34-58 | of the 18 keys, the shipped prompt contains the Orca's alone |
| TestScript.OrcaExample | test.py:57-59 | the shipped prompt fetches ["Orca"] |
| TestBackup.RefsDistinct | test_backup.py:28-39 | the table has 10 keys, no two alike |
| TestBackup.ExtractCharactersFromPrompt | test_backup.py:96-107 | every key when a keyword is mentioned; otherwise exactly the keys in the prompt, in table order, none twice |
| TestBackup.NeverOrangeOrFish | test_backup.py:28-39 | no prompt fetches "Orange" or "Fish", which the smaller table lacks |
| TestBackup.BallerinaSummonsAll | test_backup.py:96-107 | a prompt that names Ballerina Cappuccina fetches all 10 keys |
| TestBackup.AlligatorSummonsAll | test_backup.py:96-107 | a prompt that names the Alligator fetches all 10 keys |
| TestBackup.PatapimNoKeyword | test_backup.py:104 | the shipped prompt of line 43 contains none of the four keywords, after lower-casing |
| TestBackup.PatapimOnlyKey | test_backup.py:28-43 | of the 10 keys, the shipped prompt contains Brr Brr Patapim's alone |
| TestBackup.PatapimExample | test_backup.py:42-44 | the shipped prompt fetches ["Brr Brr Patapim"] |

## Left out

- Randomness: `random.randint` and `random.sample` become an `Oracle` parameter of raw draws. Each draw is reduced modulo the size of its range, so every oracle is legal, and every outcome of the two calls comes from some oracle (`Combinations.RandIntReaches`, `Combinations.SampleReaches`). The distribution of the draws is not modelled.
- I/O: the model has no file reading, regex substitution or file writing in `update_test_py` (prompt_agent.py:337-345, 358-372), and no `main`. The error message printed by the catch-all handler is not modelled; the handler's empty result is.
- Out of scope: the image scripts' HTTP calls, uploads, retries, sleeps and image saving. Of those scripts, only the tables, the shipped prompts and the extractor are modelled.
- Unused data: the colours, props, style and personality of each character theme are never read by the prompt code, so only the theme keys are modelled. The file names in `CHARACTER_REFS` are not modelled either.
- Combinations.CycleCharacters: the `ZeroDivision` error needs a configuration with no names. The parser never produces one, so only a hand-built configuration reaches it. The same holds for `i % len(actions)` in the batch.
- SpecParser.ParseInt: accepts only an optional sign and ASCII digits. Python's `int()` also accepts underscores between digits and non-ASCII decimal digits, and the regex's `\d` also matches non-ASCII decimal digits. Neither is modelled. Nor is the limit on decimal strings of more than 4300 digits, which `int()` refuses with a `ValueError` since CPython 3.11 and in the security releases 3.7.14, 3.8.14, 3.9.14 and 3.10.7. That limit applies to the count at prompt_agent.py:165 and to the bracket numbers read at prompt_agent.py:193-202. On such an input the program returns no prompts, while the model parses the number.
- Text.Lower: lower-cases ASCII letters only. For the extractor's keywords this agrees with Python's `lower()`. Only two non-ASCII characters lower-case to ASCII letters. U+212A (the Kelvin sign) becomes "k", a letter no keyword holds. U+0130 becomes "i" followed by U+0307, a combining dot. That dot stands where "five" needs its "v", so neither can complete a keyword.
- PromptsLiteral.ReadLiteralBuilt: the reader turns only `\"` back into `"`. Python would also interpret `\\` and the other escape sequences. So for a prompt holding a backslash, the literal that `update_test_py` writes is not read back by Python as that prompt. The round trip is stated for the model's reader.
- PromptsLiteral.ReadLiteralBuilt: requires that no prompt hold a newline. A newline inside a double-quoted Python string literal is a syntax error in the file written.
- TestScript.JointPrompts, TestBackup.JointPrompts: each prompt is written as its list of words joined by single spaces. The text is the same as the literal in the script.
