/**
 * Prompt construction: the configured template gets its first `{0}`
 * replaced by the instruction and then, in the result of that, its first
 * `{1}` replaced by the selected text.
 */
module PromptTemplate {
  import opened JsString

  const InstructionPlaceholder := "{0}"
  const ContentPlaceholder := "{1}"

  /**
   * The shipped value of the `defaultFullPrompt` setting, written as the
   * text before `{0}`, the placeholder, the text between the placeholders
   * and the placeholder `{1}`:
   * "Make the text following the --- {0}. Return only the revised text
   * without the --- in your response and nothing else.\r\n---\r\n{1}".
   */
  const DefaultFullPrompt := DefaultLead + InstructionPlaceholder + DefaultMiddle + ContentPlaceholder

  const DefaultLead := "Make the text following the --- "
  // The same text as one literal; it is split into short pieces because the
  // verifier reads off the characters of a short literal, which
  // `DefaultFullPromptShape` needs, but not those of a long one.
  const DefaultMiddle := ". Return only the revised" + " text without the --- in" + " your response and nothing" + " else.\r\n---\r\n"

  /** Two `replace` calls in a row; the second searches the output of the first. */
  function Render(template: string, instruction: string, content: string): string {
    ReplaceFirst(ReplaceFirst(template, InstructionPlaceholder, instruction), ContentPlaceholder, content)
  }

  lemma DefaultFullPromptShape()
    ensures forall k :: 0 <= k < |DefaultLead| ==> DefaultLead[k] != '{'
    ensures forall k :: 0 <= k < |DefaultMiddle| ==> DefaultMiddle[k] != '{'
    ensures DefaultMiddle[0] !in ContentPlaceholder[1..]
  {
  }

  /**
   * First step on a template `lead + {0} + rest` whose lead text holds no
   * `{`: the instruction (free of `$`) takes the place of `{0}`.
   */
  lemma InstructionStep(lead: string, rest: string, instruction: string)
    requires forall k :: 0 <= k < |lead| ==> lead[k] != '{'
    requires '$' !in instruction
    ensures ReplaceFirst(lead + InstructionPlaceholder + rest, InstructionPlaceholder, instruction)
         == lead + instruction + rest
  {
    var s := lead + InstructionPlaceholder + rest;
    assert s == lead + (InstructionPlaceholder + rest);
    NoOccurrenceInLead(lead, InstructionPlaceholder + rest, InstructionPlaceholder);
    ReplaceFirstAt(s, InstructionPlaceholder, instruction, lead, rest);
  }

  /**
   * On a template `lead + {0} + middle + {1}` whose fixed texts hold no
   * `{` (and `middle` does not start with `1` or `}`), an instruction
   * holding no `{1}` gives exactly lead + instruction + middle + selection.
   */
  lemma RenderTwoPlaceholders(lead: string, middle: string, instruction: string, content: string)
    requires forall k :: 0 <= k < |lead| ==> lead[k] != '{'
    requires forall k :: 0 <= k < |middle| ==> middle[k] != '{'
    requires middle != [] ==> middle[0] !in ContentPlaceholder[1..]
    requires !Contains(instruction, ContentPlaceholder)
    requires '$' !in instruction && '$' !in content
    ensures Render(lead + InstructionPlaceholder + middle + ContentPlaceholder, instruction, content)
         == lead + instruction + middle + content
  {
    var rest := middle + ContentPlaceholder;
    assert lead + InstructionPlaceholder + middle + ContentPlaceholder == lead + InstructionPlaceholder + rest;
    InstructionStep(lead, rest, instruction);
    ContentStep(lead, instruction, middle, content);
  }

  /** The second substitution: the first `{1}` is the template's own. */
  lemma ContentStep(lead: string, instruction: string, middle: string, content: string)
    requires forall k :: 0 <= k < |lead| ==> lead[k] != '{'
    requires forall k :: 0 <= k < |middle| ==> middle[k] != '{'
    requires middle != [] ==> middle[0] !in ContentPlaceholder[1..]
    requires !Contains(instruction, ContentPlaceholder)
    requires '$' !in content
    ensures ReplaceFirst(lead + instruction + (middle + ContentPlaceholder), ContentPlaceholder, content)
         == lead + instruction + middle + content
  {
    var pat := ContentPlaceholder;
    var rest := middle + pat;
    var s := lead + instruction + rest;
    assert s == lead + (instruction + rest);
    NoOccurrenceInLead(lead, instruction + rest, pat);
    NoOccurrenceOverSegment(lead, instruction, rest, pat);
    var pre := lead + instruction + middle;
    assert s == pre + pat + [];
    NoOccurrenceInMiddle(lead + instruction, middle, pat);
    ReplaceFirstAt(s, pat, content, pre, []);
  }

  /** No occurrence of `{1}` starts inside a text that holds no `{`. */
  lemma NoOccurrenceInMiddle(front: string, middle: string, pat: string)
    requires pat == ContentPlaceholder
    requires forall k :: 0 <= k < |middle| ==> middle[k] != '{'
    requires NoOccurrenceBefore(front + (middle + pat), pat, |front|)
    ensures NoOccurrenceBefore(front + (middle + pat), pat, |front| + |middle|)
  {
    var s := front + (middle + pat);
    forall j | |front| <= j < |front| + |middle| ensures s[j] != pat[0] {
      assert s[j] == middle[j - |front|];
    }
    NoOccurrenceOverChars(s, pat, |front|, |front| + |middle|);
  }

  /**
   * The same template with an instruction that itself holds `{1}`: the
   * selection is put into the instruction, and the template's own `{1}`
   * stays in the prompt.
   */
  lemma RenderTwoPlaceholdersNested(lead: string, middle: string, instruction: string, content: string)
    requires forall k :: 0 <= k < |lead| ==> lead[k] != '{'
    requires Contains(instruction, ContentPlaceholder)
    requires '$' !in instruction && '$' !in content
    ensures Render(lead + InstructionPlaceholder + middle + ContentPlaceholder, instruction, content)
         == lead + ReplaceFirst(instruction, ContentPlaceholder, content) + middle + ContentPlaceholder
  {
    var rest := middle + ContentPlaceholder;
    assert lead + InstructionPlaceholder + middle + ContentPlaceholder == lead + InstructionPlaceholder + rest;
    InstructionStep(lead, rest, instruction);
    ReplaceFirstInSegment(lead, instruction, rest, ContentPlaceholder, content);
  }

  /**
   * On the default template, with an instruction that holds no `{1}`, the
   * prompt is exactly lead text + instruction + middle text + selection
   * (neither replacement holding a `$`).
   */
  lemma RenderDefault(instruction: string, content: string)
    requires !Contains(instruction, ContentPlaceholder)
    requires '$' !in instruction && '$' !in content
    ensures Render(DefaultFullPrompt, instruction, content)
         == DefaultLead + instruction + DefaultMiddle + content
  {
    DefaultFullPromptShape();
    RenderTwoPlaceholders(DefaultLead, DefaultMiddle, instruction, content);
  }

  /**
   * Substitution is sequential: on the default template an instruction
   * that itself holds `{1}` receives the selection there, and the
   * template's own `{1}` is left in the prompt.
   */
  lemma RenderDefaultNested(instruction: string, content: string)
    requires Contains(instruction, ContentPlaceholder)
    requires '$' !in instruction && '$' !in content
    ensures Render(DefaultFullPrompt, instruction, content)
         == DefaultLead + ReplaceFirst(instruction, ContentPlaceholder, content) + DefaultMiddle + ContentPlaceholder
  {
    DefaultFullPromptShape();
    RenderTwoPlaceholdersNested(DefaultLead, DefaultMiddle, instruction, content);
  }

  /** A template without placeholders is sent as it is. */
  lemma RenderWithoutPlaceholders(template: string, instruction: string, content: string)
    requires !Contains(template, InstructionPlaceholder) && !Contains(template, ContentPlaceholder)
    ensures Render(template, instruction, content) == template
  {
  }
}
