/** The Python list literal `update_test_py` writes in place of
    `JOINT_PROMPTS` (prompt_agent.py:348-356): an opening `[`, one line per
    prompt (four spaces, the prompt in double quotes with every `"` escaped,
    a comma on all lines but the last), then four spaces and `]`. */
module PromptsLiteral {
  import opened Text

  const Indent: string := "    "

  /** One prompt as a quoted Python string. */
  function Item(p: string): string {
    Indent + ['"'] + EscapeQuotes(p) + ['"']
  }

  /** Line i of the list body: the item, and a comma unless it is the last. */
  function Line(prompts: seq<string>, i: nat): string
    requires i < |prompts|
  {
    Item(prompts[i]) + (if i < |prompts| - 1 then "," else "")
  }

  function Lines(prompts: seq<string>): (r: seq<string>)
    ensures |r| == |prompts|
    ensures forall i :: 0 <= i < |prompts| ==> r[i] == Line(prompts, i)
  {
    seq(|prompts|, i requires 0 <= i < |prompts| => Line(prompts, i))
  }

  /** The literal as a whole: the lines between `[` and `    ]`. */
  function Literal(prompts: seq<string>): string {
    Join("\n", ["["] + Lines(prompts) + [Indent + "]"])
  }

  /** The text after `i` passes of the loop, one finished line per pass. */
  function Emitted(lines: seq<string>, i: nat): string
    requires i <= |lines|
    decreases i
  {
    if i == 0 then "[\n" else Emitted(lines, i - 1) + lines[i - 1] + "\n"
  }

  /** The loop that builds `prompts_str`. */
  method BuildPromptsLiteral(prompts: seq<string>) returns (literal: string)
    ensures literal == Literal(prompts)
  {
    literal := "[\n";
    for i := 0 to |prompts|
      invariant literal == Emitted(Lines(prompts), i)
    {
      var escaped := EscapeQuotes(prompts[i]);
      var line := Indent + ['"'] + escaped + ['"'];
      if i < |prompts| - 1 {
        line := line + ",";
      }
      assert line == Lines(prompts)[i];
      literal := literal + line + "\n";
    }
    literal := literal + Indent + "]";
    EmittedLiteral(prompts);
  }

  // ------------------------------------------------------------ reading back

  /** A list line read back as the prompt it holds: the optional trailing
      comma, the closing quote and the indented opening quote dropped, and
      every `\"` turned back into `"`. */
  function Unquote(line: string): string {
    var body := if line != [] && line[|line| - 1] == ',' then line[..|line| - 1] else line;
    if |body| < 6 then [] else UnescapeQuotes(body[5..|body| - 1])
  }

  /** The prompts of a literal: the lines between the first and the last. */
  function ReadLiteral(text: string): seq<string> {
    var lines := Split(text, '\n');
    if |lines| < 2 then []
    else seq(|lines| - 2, i requires 0 <= i < |lines| - 2 => Unquote(lines[i + 1]))
  }

  // ------------------------------------------------------------ properties

  lemma {:induction false} JoinSplitLast(sep: string, init: seq<string>, a: string, b: string)
    requires |init| >= 1
    ensures Join(sep, init + [a + sep + b]) == Join(sep, init + [a, b])
    decreases |init|
  {
    if |init| == 1 {
      assert init + [a + sep + b] == [init[0], a + sep + b];
      assert [init[0], a + sep + b][1..] == [a + sep + b];
      assert init + [a, b] == [init[0], a, b];
      assert [init[0], a, b][1..] == [a, b];
      assert [a, b][1..] == [b];
      assert Join(sep, [a, b]) == a + sep + b;
      assert Join(sep, [init[0], a, b]) == init[0] + sep + Join(sep, [a, b]);
    } else {
      JoinSplitLast(sep, init[1..], a, b);
      assert (init + [a + sep + b])[1..] == init[1..] + [a + sep + b];
      assert (init + [a, b])[1..] == init[1..] + [a, b];
    }
  }

  lemma {:induction false} Snoc(head: seq<string>, lines: seq<string>, i: nat, z: string)
    requires 0 < i <= |lines|
    ensures head + lines[..i - 1] + [lines[i - 1], z] == head + lines[..i] + [z]
  {
    assert lines[..i] == lines[..i - 1] + [lines[i - 1]];
  }

  /** What the loop has emitted, followed by any text `z`, is the lines so
      far and `z` joined by newlines. */
  lemma {:induction false} EmittedJoin(lines: seq<string>, i: nat, z: string)
    requires i <= |lines|
    ensures Emitted(lines, i) + z == Join("\n", ["["] + lines[..i] + [z])
    decreases i
  {
    if i == 0 {
      assert ["["] + lines[..0] + [z] == ["[", z];
      assert ["[", z][1..] == [z];
    } else {
      var l := lines[i - 1];
      EmittedJoin(lines, i - 1, l + "\n" + z);
      assert Emitted(lines, i) + z == Emitted(lines, i - 1) + (l + "\n" + z);
      JoinSplitLast("\n", ["["] + lines[..i - 1], l, z);
      Snoc(["["], lines, i, z);
    }
  }

  lemma {:induction false} EmittedLiteral(prompts: seq<string>)
    ensures Emitted(Lines(prompts), |prompts|) + Indent + "]" == Literal(prompts)
  {
    EmittedJoin(Lines(prompts), |prompts|, Indent + "]");
    assert Lines(prompts)[..|prompts|] == Lines(prompts);
  }

  lemma {:induction false} EscapeLacks(s: string, c: char)
    requires c != '\\' && c != '"' && c !in s
    ensures c !in EscapeQuotes(s)
    decreases |s|
  {
    if s != [] {
      EscapeLacks(s[1..], c);
    }
  }

  /** A line of the literal reads back as its prompt. */
  lemma {:induction false} UnquoteLine(prompts: seq<string>, i: nat)
    requires i < |prompts|
    ensures Unquote(Line(prompts, i)) == prompts[i]
  {
    var e := EscapeQuotes(prompts[i]);
    var item := Item(prompts[i]);
    assert item == Indent + ['"'] + e + ['"'];
    assert |item| >= 6 && item[|item| - 1] == '"';
    assert item[5..|item| - 1] == e;
    if i < |prompts| - 1 {
      assert Line(prompts, i)[..|Line(prompts, i)| - 1] == item;
    } else {
      assert Line(prompts, i) == item;
    }
    UnescapeEscape(prompts[i]);
  }

  /** Without newlines in the prompts, the literal's lines are exactly `[`,
      one line per prompt, and `    ]`. */
  lemma {:induction false} LiteralSplits(prompts: seq<string>)
    requires forall i :: 0 <= i < |prompts| ==> '\n' !in prompts[i]
    ensures Split(Literal(prompts), '\n') == ["["] + Lines(prompts) + [Indent + "]"]
  {
    var all := ["["] + Lines(prompts) + [Indent + "]"];
    forall k | 0 <= k < |all| ensures '\n' !in all[k] {
      if 1 <= k <= |prompts| {
        EscapeLacks(prompts[k - 1], '\n');
        assert all[k] == Line(prompts, k - 1);
      }
    }
    SplitJoin(all, '\n');
  }

  /** Reading the literal back gives the prompts, when none holds a newline. */
  lemma {:induction false} ReadLiteralBuilt(prompts: seq<string>)
    requires forall i :: 0 <= i < |prompts| ==> '\n' !in prompts[i]
    ensures ReadLiteral(Literal(prompts)) == prompts
  {
    LiteralSplits(prompts);
    var lines := ["["] + Lines(prompts) + [Indent + "]"];
    var r := ReadLiteral(Literal(prompts));
    assert |r| == |prompts|;
    forall i | 0 <= i < |prompts| ensures r[i] == prompts[i] {
      assert lines[i + 1] == Line(prompts, i);
      UnquoteLine(prompts, i);
    }
  }

  /** No prompts: the brackets alone. */
  lemma {:induction false} EmptyLiteral()
    ensures Literal([]) == "[\n    ]"
  {
    assert Lines([]) == [];
    assert Indent + "]" == "    ]";
    assert ["["] + Lines([]) + [Indent + "]"] == ["[", "    ]"];
    assert ["[", "    ]"][1..] == ["    ]"];
  }
}
